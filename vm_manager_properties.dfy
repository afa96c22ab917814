/** What the VM manager promises, proved of the functions in module VmManager. */
module VmManagerProperties {
  import opened Options
  import opened Text
  import opened Dict
  import opened VmManager

  // ---------------------------------------------------------------------------------------
  // Ports and MAC addresses

  /** The ports of every stored VM are among those the allocators compare. */
  lemma PortsCompared(h: Host, k: string)
    requires Ordered(h.vms, h.order) && k in h.vms
    ensures h.vms[k].vncPort in VncPorts(Values(h.vms, h.order))
    ensures h.vms[k].serialPort in SerialPorts(Values(h.vms, h.order))
  {
    var vs := Values(h.vms, h.order);
    ValuesComplete(h.vms, h.order, k);
    var i :| 0 <= i < |vs| && vs[i] == h.vms[k];
    assert VncPorts(vs)[i] == h.vms[k].vncPort;
    assert SerialPorts(vs)[i] == h.vms[k].serialPort;
  }

  /**
   * The next VNC display and serial port are one more than the largest in use, so they are
   * strictly greater than every port of every VM; with no VMs they are 1 and 5001.
   */
  lemma NextPortsAreFresh(h: Host)
    requires Ordered(h.vms, h.order)
    ensures forall k :: k in h.vms ==> h.vms[k].vncPort < NextVncPort(h) && h.vms[k].serialPort < NextSerialPort(h)
    ensures h.vms == map[] ==> NextVncPort(h) == 1 && NextSerialPort(h) == 5001
  {
    forall k | k in h.vms
      ensures h.vms[k].vncPort < NextVncPort(h) && h.vms[k].serialPort < NextSerialPort(h)
    {
      PortsCompared(h, k);
    }
  }

  /** The next VNC display is exactly one past a display in use, when there is one. */
  lemma NextVncPortIsMaxPlusOne(h: Host)
    requires Ordered(h.vms, h.order) && h.vms != map[]
    ensures exists k :: k in h.vms && h.vms[k].vncPort == NextVncPort(h) - 1
  {
    var vs := Values(h.vms, h.order);
    var k0 :| k0 in h.vms;
    PortsCompared(h, k0);
    var m := MaxOr(VncPorts(vs), 0);
    var i :| 0 <= i < |vs| && VncPorts(vs)[i] == m;
    assert vs[i] in vs;
    var k :| k in h.order && k in h.vms && h.vms[k] == vs[i];
    assert h.vms[k].vncPort == NextVncPort(h) - 1;
  }

  /** The next serial port is exactly one past a serial port in use, when there is one. */
  lemma NextSerialPortIsMaxPlusOne(h: Host)
    requires Ordered(h.vms, h.order) && h.vms != map[]
    ensures exists k :: k in h.vms && h.vms[k].serialPort == NextSerialPort(h) - 1
  {
    var vs := Values(h.vms, h.order);
    var k0 :| k0 in h.vms;
    PortsCompared(h, k0);
    var m := MaxOr(SerialPorts(vs), 5000);
    var i :| 0 <= i < |vs| && SerialPorts(vs)[i] == m;
    assert vs[i] in vs;
    var k :| k in h.order && k in h.vms && h.vms[k] == vs[i];
    assert h.vms[k].serialPort == NextSerialPort(h) - 1;
  }

  /** A generated MAC starts with the QEMU prefix 52:54:00 and then spells the three random bytes. */
  lemma GeneratedMacPrefix(b3: Byte, b4: Byte, b5: Byte)
    ensures GenerateMac(b3, b4, b5) == "52:54:00:" + JoinHex([b3, b4, b5])
  {
    var bs: seq<Byte> := [0x52, 0x54, 0x00, b3, b4, b5];
    var t1, t2 := bs[1..], bs[1..][1..];
    var rest := JoinHex(t2[1..]);
    assert t2[1..] == [b3, b4, b5];
    assert JoinHex(t2) == Hex2(0x00) + ":" + rest;
    assert JoinHex(t1) == Hex2(0x54) + ":" + JoinHex(t2);
    assert JoinHex(bs) == Hex2(0x52) + ":" + JoinHex(t1);
    assert Hex2(0x52) == "52" && Hex2(0x54) == "54" && Hex2(0x00) == "00";
  }

  /** A generated MAC is six two-digit lower-case hex bytes separated by colons, and the bytes read back. */
  lemma GeneratedMacShape(b3: Byte, b4: Byte, b5: Byte)
    ensures var mac := GenerateMac(b3, b4, b5);
            && |mac| == 17
            && mac[..9] == "52:54:00:"
            && (forall i :: 0 <= i < 17 ==> (mac[i] == ':' <==> i % 3 == 2))
            && (forall i :: 0 <= i < 17 && i % 3 != 2 ==> IsLowerHex(mac[i]))
            && ParseHexBytes(mac) == [0x52, 0x54, 0x00, b3, b4, b5]
  {
    GeneratedMacPrefix(b3, b4, b5);
    JoinHexRoundTrip([0x52, 0x54, 0x00, b3, b4, b5]);
  }

  // ---------------------------------------------------------------------------------------
  // The QEMU command line, read back

  /** ParseArgs at a position of the command line: one option, then the rest. */
  lemma ParseAt(args: seq<string>, i: int)
    requires 0 <= i < |args|
    ensures ParseArgs(args[i..]) ==
              if Standalone(args[i]) || i + 1 == |args| then [QemuOption(args[i], None)] + ParseArgs(args[i + 1..])
              else [QemuOption(args[i], Some(args[i + 1]))] + ParseArgs(args[i + 2..])
  {
    assert args[i..][0] == args[i];
    assert args[i..][1..] == args[i + 1..];
    if i + 1 < |args| {
      assert args[i..][1] == args[i + 1];
      assert args[i..][2..] == args[i + 2..];
    }
  }

  /** The `-boot` option `build_qemu_command` adds for a boot mode. */
  function BootOption(mode: string): seq<QemuOption> {
    if mode == BOOT_PXE then [QemuOption("-boot", Some("order=nc"))]
    else if mode == BOOT_DISK then [QemuOption("-boot", Some("order=c"))]
    else if mode == BOOT_PXE_ONLY then [QemuOption("-boot", Some("order=n"))]
    else []
  }

  /** The options of the fixed part of the command line, as QEMU reads them. */
  function BaseOptions(vm: VmConfig): seq<QemuOption> {
    [QemuOption("-name", Some(vm.name)),
     QemuOption("-m", Some(IntToString(vm.memory))),
     QemuOption("-smp", Some(IntToString(vm.cpus))),
     QemuOption("-drive", Some("file=" + vm.disk + ",if=virtio,format=qcow2")),
     QemuOption("-netdev", Some("bridge,id=net0,br=" + vm.network)),
     QemuOption("-device", Some("virtio-net-pci,netdev=net0,mac=" + vm.mac)),
     QemuOption("-vnc", Some(":" + IntToString(vm.vncPort))),
     QemuOption("-serial", Some("telnet::" + IntToString(vm.serialPort) + ",server,nowait")),
     QemuOption("-daemonize", None),
     QemuOption("-pidfile", Some(PidFilePath(vm.name)))]
  }

  function AccelOptions(kvm: bool): seq<QemuOption> {
    if kvm then [QemuOption("-enable-kvm", None), QemuOption("-cpu", Some("host"))] else []
  }

  /** A flag that takes an argument, followed by it. */
  lemma ParsePair(flag: string, value: string, rest: seq<string>)
    requires !Standalone(flag)
    ensures ParseArgs([flag, value] + rest) == [QemuOption(flag, Some(value))] + ParseArgs(rest)
  {
    assert ([flag, value] + rest)[2..] == rest;
  }

  lemma ParseStandalone(flag: string, rest: seq<string>)
    requires Standalone(flag)
    ensures ParseArgs([flag] + rest) == [QemuOption(flag, None)] + ParseArgs(rest)
  {
    assert ([flag] + rest)[1..] == rest;
  }

  /** The shape of the fixed arguments, whatever their values, one option at a time. */
  lemma ParseFixedArgs(name: string, mem: string, smp: string, drive: string, netdev: string,
                       device: string, vnc: string, serial: string, pidfile: string, rest: seq<string>)
    ensures ParseArgs(["-name", name] + (["-m", mem] + (["-smp", smp] + (["-drive", drive] + (["-netdev", netdev] +
                      (["-device", device] + (["-vnc", vnc] + (["-serial", serial] + (["-daemonize"] +
                      (["-pidfile", pidfile] + rest))))))))))
            == [QemuOption("-name", Some(name))] + ([QemuOption("-m", Some(mem))] + ([QemuOption("-smp", Some(smp))] +
               ([QemuOption("-drive", Some(drive))] + ([QemuOption("-netdev", Some(netdev))] +
               ([QemuOption("-device", Some(device))] + ([QemuOption("-vnc", Some(vnc))] +
               ([QemuOption("-serial", Some(serial))] + ([QemuOption("-daemonize", None)] +
               ([QemuOption("-pidfile", Some(pidfile))] + ParseArgs(rest))))))))))
  {
    var r9 := ["-pidfile", pidfile] + rest;
    var r8 := ["-daemonize"] + r9;
    var r7 := ["-serial", serial] + r8;
    var r6 := ["-vnc", vnc] + r7;
    var r5 := ["-device", device] + r6;
    var r4 := ["-netdev", netdev] + r5;
    var r3 := ["-drive", drive] + r4;
    var r2 := ["-smp", smp] + r3;
    var r1 := ["-m", mem] + r2;
    ParsePair("-pidfile", pidfile, rest);
    ParseStandalone("-daemonize", r9);
    ParsePair("-serial", serial, r8);
    ParsePair("-vnc", vnc, r7);
    ParsePair("-device", device, r6);
    ParsePair("-netdev", netdev, r5);
    ParsePair("-drive", drive, r4);
    ParsePair("-smp", smp, r3);
    ParsePair("-m", mem, r2);
    ParsePair("-name", name, r1);
  }

  /** Nineteen arguments followed by more, grouped the way ParseFixedArgs reads them. */
  lemma GroupArgs<T>(a0: T, a1: T, a2: T, a3: T, a4: T, a5: T, a6: T, a7: T, a8: T, a9: T, a10: T,
                     a11: T, a12: T, a13: T, a14: T, a15: T, a16: T, a17: T, a18: T, rest: seq<T>)
    ensures [a0, a1, a2, a3, a4, a5, a6, a7, a8, a9, a10, a11, a12, a13, a14, a15, a16, a17, a18] + rest
         == [a0, a1] + ([a2, a3] + ([a4, a5] + ([a6, a7] + ([a8, a9] + ([a10, a11] + ([a12, a13] +
            ([a14, a15] + ([a16] + ([a17, a18] + rest)))))))))
  {
    var s9 := [a17, a18] + rest;
    var s8 := [a16] + s9;
    var s7 := [a14, a15] + s8;
    var s6 := [a12, a13] + s7;
    var s5 := [a10, a11] + s6;
    assert [a10, a11, a12, a13, a14, a15, a16, a17, a18] + rest == s5;
    assert [a0, a1, a2, a3, a4, a5, a6, a7, a8, a9, a10, a11, a12, a13, a14, a15, a16, a17, a18] + rest
        == [a0, a1, a2, a3, a4, a5, a6, a7, a8, a9] + s5;
  }

  /** Ten options followed by more, grouped one at a time. */
  lemma GroupOptions<T>(o0: T, o1: T, o2: T, o3: T, o4: T, o5: T, o6: T, o7: T, o8: T, o9: T, rest: seq<T>)
    ensures [o0, o1, o2, o3, o4, o5, o6, o7, o8, o9] + rest
         == [o0] + ([o1] + ([o2] + ([o3] + ([o4] + ([o5] + ([o6] + ([o7] + ([o8] + ([o9] + rest)))))))))
  {
    var s5 := [o5] + ([o6] + ([o7] + ([o8] + ([o9] + rest))));
    assert [o5, o6, o7, o8, o9] + rest == s5;
    assert [o0, o1, o2, o3, o4, o5, o6, o7, o8, o9] + rest == [o0, o1, o2, o3, o4] + s5;
  }

  lemma ParseBase(vm: VmConfig, rest: seq<string>)
    ensures ParseArgs(BaseArgs(vm)[1..] + rest) == BaseOptions(vm) + ParseArgs(rest)
  {
    var mem, smp, vnc := IntToString(vm.memory), IntToString(vm.cpus), ":" + IntToString(vm.vncPort);
    var drive := "file=" + vm.disk + ",if=virtio,format=qcow2";
    var netdev := "bridge,id=net0,br=" + vm.network;
    var device := "virtio-net-pci,netdev=net0,mac=" + vm.mac;
    var serial := "telnet::" + IntToString(vm.serialPort) + ",server,nowait";
    var pidfile := PidFilePath(vm.name);
    ParseFixedArgs(vm.name, mem, smp, drive, netdev, device, vnc, serial, pidfile, rest);
    assert BaseArgs(vm)[1..] == ["-name", vm.name, "-m", mem, "-smp", smp, "-drive", drive, "-netdev", netdev,
                                 "-device", device, "-vnc", vnc, "-serial", serial, "-daemonize", "-pidfile", pidfile];
    GroupArgs("-name", vm.name, "-m", mem, "-smp", smp, "-drive", drive, "-netdev", netdev,
              "-device", device, "-vnc", vnc, "-serial", serial, "-daemonize", "-pidfile", pidfile, rest);
    GroupOptions(QemuOption("-name", Some(vm.name)), QemuOption("-m", Some(mem)), QemuOption("-smp", Some(smp)),
                 QemuOption("-drive", Some(drive)), QemuOption("-netdev", Some(netdev)),
                 QemuOption("-device", Some(device)), QemuOption("-vnc", Some(vnc)),
                 QemuOption("-serial", Some(serial)), QemuOption("-daemonize", None),
                 QemuOption("-pidfile", Some(pidfile)), ParseArgs(rest));
  }

  lemma ParseTail(mode: string, kvm: bool)
    ensures ParseArgs(AccelArgs(kvm) + BootArgs(mode)) == AccelOptions(kvm) + BootOption(mode)
  {
    var boot := BootArgs(mode);
    if boot != [] {
      ParsePair("-boot", boot[1], []);
      assert boot == ["-boot", boot[1]] + [];
    }
    if kvm {
      ParsePair("-cpu", "host", boot);
      ParseStandalone("-enable-kvm", ["-cpu", "host"] + boot);
      assert AccelArgs(kvm) + boot == ["-enable-kvm"] + (["-cpu", "host"] + boot);
    }
  }

  /**
   * The command line is the QEMU binary followed by options QEMU reads as: the record's name,
   * memory, CPUs, disk, bridge, MAC, VNC display, serial port, daemon mode and pid file; then
   * KVM acceleration when available; then the boot option of the mode.
   */
  lemma QemuCommandOptions(vm: VmConfig, mode: string, kvm: bool)
    ensures var cmd := BuildQemuCommand(vm, mode, kvm);
            && cmd[0] == QEMU
            && ParseArgs(cmd[1..]) == BaseOptions(vm) + AccelOptions(kvm) + BootOption(mode)
  {
    var tail := AccelArgs(kvm) + BootArgs(mode);
    ParseBase(vm, tail);
    ParseTail(mode, kvm);
    assert BuildQemuCommand(vm, mode, kvm)[1..] == BaseArgs(vm)[1..] + tail;
  }

  /** A flag occurs in a list of options iff it is the first one's or occurs in the others. */
  lemma HasFlagFirst(a: seq<QemuOption>, flag: string)
    requires a != []
    ensures HasFlag(a, flag) <==> a[0].flag == flag || HasFlag(a[1..], flag)
  {
    if HasFlag(a[1..], flag) {
      var i :| 0 <= i < |a[1..]| && a[1..][i].flag == flag;
      assert a[i + 1].flag == flag;
    }
    if HasFlag(a, flag) && a[0].flag != flag {
      var i :| 0 <= i < |a| && a[i].flag == flag;
      assert a[1..][i - 1].flag == flag;
    }
  }

  /** A flag occurs in two lists one after the other iff it occurs in one of them. */
  lemma HasFlagAppend(a: seq<QemuOption>, b: seq<QemuOption>, flag: string)
    ensures HasFlag(a + b, flag) <==> HasFlag(a, flag) || HasFlag(b, flag)
  {
    if HasFlag(a + b, flag) {
      var i :| 0 <= i < |a + b| && (a + b)[i].flag == flag;
      if i >= |a| { assert b[i - |a|].flag == flag; } else { assert a[i].flag == flag; }
    }
    if HasFlag(a, flag) {
      var i :| 0 <= i < |a| && a[i].flag == flag;
      assert (a + b)[i].flag == flag;
    }
    if HasFlag(b, flag) {
      var i :| 0 <= i < |b| && b[i].flag == flag;
      assert (a + b)[i + |a|].flag == flag;
    }
  }

  /** Looking a flag up in two lists of options one after the other. */
  lemma {:induction false} OptionValueAppend(a: seq<QemuOption>, b: seq<QemuOption>, flag: string)
    ensures OptionValue(a + b, flag) == if HasFlag(a, flag) then OptionValue(a, flag) else OptionValue(b, flag)
    ensures HasFlag(a + b, flag) <==> HasFlag(a, flag) || HasFlag(b, flag)
  {
    HasFlagAppend(a, b, flag);
    if a == [] {
      assert a + b == b;
    } else {
      assert (a + b)[0] == a[0] && (a + b)[1..] == a[1..] + b;
      OptionValueAppend(a[1..], b, flag);
      HasFlagFirst(a, flag);
    }
  }

  /** The value of the first option with a flag, found at position i. */
  lemma {:induction false} OptionValueAt(opts: seq<QemuOption>, i: int, flag: string)
    requires 0 <= i < |opts| && opts[i].flag == flag
    requires forall j :: 0 <= j < i ==> opts[j].flag != flag
    ensures OptionValue(opts, flag) == opts[i].value
  {
    if i > 0 {
      OptionValueAt(opts[1..], i - 1, flag);
    }
  }

  /** No option has this flag. */
  lemma {:induction false} OptionValueAbsent(opts: seq<QemuOption>, flag: string)
    requires forall j :: 0 <= j < |opts| ==> opts[j].flag != flag
    ensures OptionValue(opts, flag).None? && !HasFlag(opts, flag)
  {
    if opts != [] {
      OptionValueAbsent(opts[1..], flag);
    }
  }

  /** The flags of the fixed part that have the same length differ in their second letter. */
  lemma FixedFlagsDiffer()
    ensures "-smp" != "-vnc" && "-netdev" != "-device" && "-netdev" != "-serial" && "-device" != "-serial"
  {
    assert "-smp"[1] != "-vnc"[1];
    assert "-netdev"[1] != "-device"[1] && "-netdev"[1] != "-serial"[1] && "-device"[1] != "-serial"[1];
  }

  /** The numeric flags of the fixed part are found there, whatever follows, with the record's values. */
  lemma BaseOptionNumbers(vm: VmConfig, rest: seq<QemuOption>)
    ensures var opts := BaseOptions(vm) + rest;
            && OptionValue(opts, "-name") == Some(vm.name)
            && OptionValue(opts, "-m") == Some(IntToString(vm.memory))
            && OptionValue(opts, "-smp") == Some(IntToString(vm.cpus))
            && OptionValue(opts, "-vnc") == Some(":" + IntToString(vm.vncPort))
  {
    var base := BaseOptions(vm);
    FixedFlagsDiffer();
    OptionValueAt(base, 0, "-name");
    OptionValueAt(base, 1, "-m");
    OptionValueAt(base, 2, "-smp");
    OptionValueAt(base, 6, "-vnc");
    OptionValueAppend(base, rest, "-name");
    OptionValueAppend(base, rest, "-m");
    OptionValueAppend(base, rest, "-smp");
    OptionValueAppend(base, rest, "-vnc");
  }

  /** The device flags of the fixed part are found there, whatever follows, with the record's values. */
  lemma BaseOptionDevices(vm: VmConfig, rest: seq<QemuOption>)
    ensures var opts := BaseOptions(vm) + rest;
            && OptionValue(opts, "-drive") == Some("file=" + vm.disk + ",if=virtio,format=qcow2")
            && OptionValue(opts, "-netdev") == Some("bridge,id=net0,br=" + vm.network)
            && OptionValue(opts, "-device") == Some("virtio-net-pci,netdev=net0,mac=" + vm.mac)
  {
    var base := BaseOptions(vm);
    FixedFlagsDiffer();
    OptionValueAt(base, 3, "-drive");
    OptionValueAt(base, 4, "-netdev");
    OptionValueAt(base, 5, "-device");
    OptionValueAppend(base, rest, "-drive");
    OptionValueAppend(base, rest, "-netdev");
    OptionValueAppend(base, rest, "-device");
  }

  /** The fixed part asks QEMU to detach and to write the pid file of the record's name. */
  lemma BaseOptionDaemon(vm: VmConfig, rest: seq<QemuOption>)
    ensures var opts := BaseOptions(vm) + rest;
            && OptionValue(opts, "-pidfile") == Some(PidFilePath(vm.name))
            && HasFlag(opts, "-daemonize")
  {
    var base := BaseOptions(vm);
    OptionValueAt(base, 9, "-pidfile");
    assert base[8].flag == "-daemonize";
    OptionValueAppend(base, rest, "-pidfile");
    OptionValueAppend(base, rest, "-daemonize");
  }

  /** The numbers on the command line read back as the record's memory and CPU count. */
  lemma QemuCommandNumbers(vm: VmConfig, mode: string, kvm: bool)
    ensures var opts := ParseArgs(BuildQemuCommand(vm, mode, kvm)[1..]);
            && OptionValue(opts, "-m").Some? && ParseInt(OptionValue(opts, "-m").value) == Some(vm.memory)
            && OptionValue(opts, "-smp").Some? && ParseInt(OptionValue(opts, "-smp").value) == Some(vm.cpus)
  {
    var opts := ParseArgs(BuildQemuCommand(vm, mode, kvm)[1..]);
    var rest := AccelOptions(kvm) + BootOption(mode);
    QemuCommandOptions(vm, mode, kvm);
    assert opts == BaseOptions(vm) + rest;
    BaseOptionNumbers(vm, rest);
    IntToStringRoundTrip(vm.memory);
    IntToStringRoundTrip(vm.cpus);
  }

  /** The name, disk, bridge, MAC, VNC display and pid file on the command line are the record's; QEMU daemonizes. */
  lemma QemuCommandDevices(vm: VmConfig, mode: string, kvm: bool)
    ensures var opts := ParseArgs(BuildQemuCommand(vm, mode, kvm)[1..]);
            && OptionValue(opts, "-name") == Some(vm.name)
            && OptionValue(opts, "-drive") == Some("file=" + vm.disk + ",if=virtio,format=qcow2")
            && OptionValue(opts, "-netdev") == Some("bridge,id=net0,br=" + vm.network)
            && OptionValue(opts, "-device") == Some("virtio-net-pci,netdev=net0,mac=" + vm.mac)
            && OptionValue(opts, "-vnc") == Some(":" + IntToString(vm.vncPort))
            && OptionValue(opts, "-pidfile") == Some(PidFilePath(vm.name))
            && HasFlag(opts, "-daemonize")
  {
    var opts := ParseArgs(BuildQemuCommand(vm, mode, kvm)[1..]);
    var rest := AccelOptions(kvm) + BootOption(mode);
    QemuCommandOptions(vm, mode, kvm);
    assert opts == BaseOptions(vm) + rest;
    BaseOptionNumbers(vm, rest);
    BaseOptionDevices(vm, rest);
    BaseOptionDaemon(vm, rest);
  }

  /** The fixed part has no acceleration or boot option. */
  lemma BaseOptionsLack(vm: VmConfig, flag: string)
    requires flag == "-enable-kvm" || flag == "-cpu" || flag == "-boot"
    ensures !HasFlag(BaseOptions(vm), flag) && OptionValue(BaseOptions(vm), flag).None?
  {
    OptionValueAbsent(BaseOptions(vm), flag);
  }

  /** After the fixed part: acceleration exactly when KVM is available. */
  lemma TailAcceleration(mode: string, kvm: bool)
    ensures var tail := AccelOptions(kvm) + BootOption(mode);
            && (HasFlag(tail, "-enable-kvm") <==> kvm)
            && OptionValue(tail, "-cpu") == (if kvm then Some("host") else None)
  {
    var accel, boot := AccelOptions(kvm), BootOption(mode);
    OptionValueAbsent(boot, "-enable-kvm");
    OptionValueAbsent(boot, "-cpu");
    OptionValueAppend(accel, boot, "-enable-kvm");
    OptionValueAppend(accel, boot, "-cpu");
    if kvm {
      assert accel[0].flag == "-enable-kvm";
      OptionValueAt(accel, 1, "-cpu");
    } else {
      OptionValueAbsent(accel, "-enable-kvm");
    }
  }

  /** KVM acceleration (`-enable-kvm -cpu host`) is requested exactly when KVM is available. */
  lemma QemuCommandAcceleration(vm: VmConfig, mode: string, kvm: bool)
    ensures var opts := ParseArgs(BuildQemuCommand(vm, mode, kvm)[1..]);
            && (HasFlag(opts, "-enable-kvm") <==> kvm)
            && OptionValue(opts, "-cpu") == (if kvm then Some("host") else None)
  {
    var opts := ParseArgs(BuildQemuCommand(vm, mode, kvm)[1..]);
    var tail := AccelOptions(kvm) + BootOption(mode);
    QemuCommandOptions(vm, mode, kvm);
    assert opts == BaseOptions(vm) + tail;
    BaseOptionsLack(vm, "-enable-kvm");
    BaseOptionsLack(vm, "-cpu");
    OptionValueAppend(BaseOptions(vm), tail, "-enable-kvm");
    OptionValueAppend(BaseOptions(vm), tail, "-cpu");
    TailAcceleration(mode, kvm);
  }

  /**
   * The boot order: `pxe` tries the network and then the disk, `disk` only the disk, `pxe-only`
   * only the network, and any other mode adds no `-boot` option at all.
   */
  lemma QemuCommandBootOrder(vm: VmConfig, mode: string, kvm: bool)
    ensures var boot := OptionValue(ParseArgs(BuildQemuCommand(vm, mode, kvm)[1..]), "-boot");
            && (mode == BOOT_PXE ==> boot.Some? && BootOrder(boot.value) == [Network, HardDisk])
            && (mode == BOOT_DISK ==> boot.Some? && BootOrder(boot.value) == [HardDisk])
            && (mode == BOOT_PXE_ONLY ==> boot.Some? && BootOrder(boot.value) == [Network])
            && (mode != BOOT_PXE && mode != BOOT_DISK && mode != BOOT_PXE_ONLY ==> boot.None?)
  {
    QemuCommandOptions(vm, mode, kvm);
    var accel, bootOpts := AccelOptions(kvm), BootOption(mode);
    BaseOptionsLack(vm, "-boot");
    OptionValueAbsent(accel, "-boot");
    OptionValueAppend(BaseOptions(vm), accel, "-boot");
    OptionValueAppend(BaseOptions(vm) + accel, bootOpts, "-boot");
    if bootOpts != [] {
      OptionValueAt(bootOpts, 0, "-boot");
    }
    assert BootOrder("order=nc") == [Network, HardDisk] by { assert "order=nc"[6..] == "nc"; }
    assert BootOrder("order=c") == [HardDisk] by { assert "order=c"[6..] == "c"; }
    assert BootOrder("order=n") == [Network] by { assert "order=n"[6..] == "n"; }
  }

  // ---------------------------------------------------------------------------------------
  // create_disk and create_vm

  /** An existing name is refused and nothing changes. */
  lemma CreateExistingName(h: Host, name: string, memory: int, cpus: int, diskSize: int, mac: (Byte, Byte, Byte), imgOk: bool)
    requires name in h.vms
    ensures Create(h, name, memory, cpus, diskSize, mac, imgOk) == (h, CreateExists)
  {
  }

  /**
   * A new name gets exactly one new record, stopped, on br0, with the given memory and CPUs,
   * the disk images/vms/<name>.qcow2 and the next free VNC display and serial port, appended to
   * the table; qemu-img runs only when that disk did not exist, and the pid files are untouched.
   */
  lemma CreateNewName(h: Host, name: string, memory: int, cpus: int, diskSize: int, mac: (Byte, Byte, Byte), imgOk: bool)
    requires name !in h.vms
    requires imgOk || DiskPath(name) in h.disks
    ensures var r := Create(h, name, memory, cpus, diskSize, mac, imgOk);
            && r.1.Created?
            && (r.1.diskCommand.Some? <==> DiskPath(name) !in h.disks)
            && r.0.order == h.order + [name]
            && r.0.vms.Keys == h.vms.Keys + {name}
            && (forall k :: k in h.vms ==> r.0.vms[k] == h.vms[k])
            && r.0.vms[name].name == name && r.0.vms[name].state == STOPPED
            && r.0.vms[name].network == NETWORK && r.0.vms[name].disk == DiskPath(name)
            && r.0.vms[name].memory == memory && r.0.vms[name].cpus == cpus
            && r.0.vms[name].mac == GenerateMac(mac.0, mac.1, mac.2)
            && r.0.vms[name].vncPort == NextVncPort(h) && r.0.vms[name].serialPort == NextSerialPort(h)
            && r.0.disks == h.disks + {DiskPath(name)}
            && r.0.pidFiles == h.pidFiles && r.0.livePids == h.livePids
  {
  }

  /** When qemu-img fails, the error leaves create_vm and nothing is recorded. */
  lemma CreateDiskFailure(h: Host, name: string, memory: int, cpus: int, diskSize: int, mac: (Byte, Byte, Byte))
    requires name !in h.vms && DiskPath(name) !in h.disks
    ensures Create(h, name, memory, cpus, diskSize, mac, false) == (h, CreateDiskFailed(QemuImgCommand(name, diskSize)))
  {
  }

  /** A disk image is created at most once: once it exists, create_disk reuses it without running qemu-img. */
  lemma DiskCreatedOnce(h: Host, name: string, size1: int, size2: int, ok1: bool, ok2: bool)
    ensures var first := CreateDisk(h, name, size1, ok1);
            first.1.DiskCreated? ==> CreateDisk(first.0, name, size2, ok2) == (first.0, DiskReused)
  {
  }

  /** Creating the same name twice: the second call is refused, so there is still one record and one disk. */
  lemma CreateTwice(h: Host, name: string, memory: int, cpus: int, diskSize: int, mac1: (Byte, Byte, Byte), mac2: (Byte, Byte, Byte), imgOk: bool)
    ensures var first := Create(h, name, memory, cpus, diskSize, mac1, imgOk);
            first.1.Created? ==> Create(first.0, name, memory, cpus, diskSize, mac2, imgOk) == (first.0, CreateExists)
  {
  }

  /** A record with ports above every port in use keeps all ports distinct. */
  lemma FreshPortsKeepDistinct(h: Host, name: string, vm: VmConfig)
    requires HostValid(h) && name !in h.vms
    requires vm.name == name && vm.disk == DiskPath(name)
    requires forall k :: k in h.vms ==> h.vms[k].vncPort < vm.vncPort && h.vms[k].serialPort < vm.serialPort
    ensures HostValid(h.(vms := h.vms[name := vm], order := h.order + [name]))
  {
    OrderedInsert(h.vms, h.order, name, vm);
  }

  /** The host after adding a new name, in terms of the disk step and the new record. */
  lemma CreateAddsRecord(h: Host, name: string, memory: int, cpus: int, diskSize: int, mac: (Byte, Byte, Byte), imgOk: bool)
    requires name !in h.vms && (imgOk || DiskPath(name) in h.disks)
    ensures var h' := CreateDisk(h, name, diskSize, imgOk).0;
            var vm := NewVm(h', name, memory, cpus, GenerateMac(mac.0, mac.1, mac.2));
            && h'.vms == h.vms && h'.order == h.order
            && Create(h, name, memory, cpus, diskSize, mac, imgOk).0 == h'.(vms := h'.vms[name := vm], order := h'.order + [name])
  {
  }

  lemma CreatePreservesValid(h: Host, name: string, memory: int, cpus: int, diskSize: int, mac: (Byte, Byte, Byte), imgOk: bool)
    requires HostValid(h)
    ensures HostValid(Create(h, name, memory, cpus, diskSize, mac, imgOk).0)
  {
    if name !in h.vms && (imgOk || DiskPath(name) in h.disks) {
      var h' := CreateDisk(h, name, diskSize, imgOk).0;
      CreateAddsRecord(h, name, memory, cpus, diskSize, mac, imgOk);
      NextPortsAreFresh(h');
      var vm := NewVm(h', name, memory, cpus, GenerateMac(mac.0, mac.1, mac.2));
      FreshPortsKeepDistinct(h', name, vm);
    }
  }

  // ---------------------------------------------------------------------------------------
  // start_vm

  /** An unknown name is not found and nothing changes. */
  lemma StartUnknownName(h: Host, name: string, mode: string, kvm: bool, launch: Option<Pid>)
    requires name !in h.vms
    ensures Start(h, name, mode, kvm, launch) == (h, StartNotFound)
  {
  }

  /** A VM whose pid file names a live process is not started again, and nothing changes. */
  lemma StartRefusesLiveVm(h: Host, name: string, mode: string, kvm: bool, launch: Option<Pid>)
    requires name in h.vms && LivePid(h, name).Some?
    ensures Start(h, name, mode, kvm, launch) == (h, AlreadyRunning(h.pidFiles[name].value))
  {
  }

  /** If QEMU fails, the command is reported and the host is unchanged (the stored state is not touched). */
  lemma StartLaunchFailure(h: Host, name: string, mode: string, kvm: bool)
    requires name in h.vms && LivePid(h, name).None?
    ensures Start(h, name, mode, kvm, None) == (h, LaunchFailed(BuildQemuCommand(h.vms[name], mode, kvm)))
  {
  }

  /**
   * A missing pid file, one that does not hold an integer, or one naming a dead process does
   * not stop a launch. A successful launch sets the state to running and leaves the pid of the
   * new QEMU in the VM's pid file; every other record and pid file stays as it was.
   */
  lemma StartLaunches(h: Host, name: string, mode: string, kvm: bool, pid: Pid)
    requires HostValid(h)
    requires name in h.vms && LivePid(h, name).None?
    ensures var r := Start(h, name, mode, kvm, Some(pid));
            && r.1 == Started(BuildQemuCommand(h.vms[name], mode, kvm))
            && r.0.vms == h.vms[name := h.vms[name].(state := RUNNING)]
            && r.0.pidFiles == h.pidFiles[name := Some(pid)]
            && r.0.livePids == h.livePids + {pid}
            && LivePid(r.0, name) == Some(pid)
            && r.0.order == h.order && r.0.disks == h.disks
  {
  }

  /** Starting a VM that was just started is refused with the pid of the running QEMU. */
  lemma StartTwice(h: Host, name: string, mode1: string, mode2: string, kvm: bool, pid: Pid, launch: Option<Pid>)
    requires HostValid(h)
    requires name in h.vms && LivePid(h, name).None?
    ensures var first := Start(h, name, mode1, kvm, Some(pid));
            Start(first.0, name, mode2, kvm, launch) == (first.0, AlreadyRunning(pid))
  {
    StartLaunches(h, name, mode1, kvm, pid);
  }

  lemma StartPreservesValid(h: Host, name: string, mode: string, kvm: bool, launch: Option<Pid>)
    requires HostValid(h)
    ensures HostValid(Start(h, name, mode, kvm, launch).0)
  {
    if name in h.vms {
      OrderedInsert(h.vms, h.order, name, h.vms[name].(state := RUNNING));
    }
  }

  // ---------------------------------------------------------------------------------------
  // stop_vm

  /**
   * A pid file naming the manager itself or its own process group ends the manager. Otherwise stop
   * succeeds exactly when the VM exists, its pid file holds an integer that the signal has a
   * target for (a live process, or a negative pid) and the signal is allowed; it then removes
   * the pid file and records the state stopped. Every other outcome leaves the host unchanged.
   */
  lemma StopOutcome(h: Host, name: string, permitted: bool)
    ensures var r := Stop(h, name, permitted);
            && (r.1.Stopped? <==> name in h.vms && name in h.pidFiles && h.pidFiles[name].Some?
                                  && !KillsManager(h, h.pidFiles[name].value)
                                  && KillTarget(h, h.pidFiles[name].value) && permitted)
            && (r.1.Stopped? ==> r.1.pid == h.pidFiles[name].value
                                 && r.0.pidFiles == h.pidFiles - {name}
                                 && r.0.vms == h.vms[name := h.vms[name].(state := STOPPED)]
                                 && r.0.order == h.order && r.0.disks == h.disks)
            && (!r.1.Stopped? ==> r.0 == h)
            && (r.1.Terminated? <==> name in h.vms && StopEndsManager(h, name))
            && (name !in h.vms ==> r.1 == StopNotFound)
            && (name in h.vms && name !in h.pidFiles ==> r.1 == NotRunning)
  {
  }

  /**
   * The manager's own pid, a pid of 0, or the negated id of the manager's own group signals the
   * manager itself: the stop ends it with nothing changed, and so does a forced delete, which
   * stops first.
   */
  lemma ManagerGroupPidFile(h: Host, name: string, pid: int, permitted: bool)
    requires name in h.vms && name in h.pidFiles && h.pidFiles[name] == Some(pid)
    requires pid == h.ownPid as int || pid == 0 || pid == -(h.ownGroup as int)
    ensures Stop(h, name, permitted) == (h, Terminated)
    ensures Delete(h, name, true, permitted) == (h, DeleteTerminated)
  {
  }

  /**
   * Any other negative pid names no process: start_vm does not count the VM as running, yet
   * the signal to that process group is delivered when permitted, so stop_vm removes the pid
   * file and reports success.
   */
  lemma NegativePidFile(h: Host, name: string, pid: int, mode: string, kvm: bool, launch: Option<Pid>)
    requires HostValid(h)
    requires name in h.vms && name in h.pidFiles && h.pidFiles[name] == Some(pid)
    requires pid < 0 && pid != -(h.ownGroup as int)
    ensures !Start(h, name, mode, kvm, launch).1.AlreadyRunning?
    ensures Stop(h, name, true).1 == Stopped(pid) && name !in Stop(h, name, true).0.pidFiles
  {
  }

  /**
   * Start and then stop: the stop signals the pid QEMU reported and leaves no pid file behind.
   * (A new QEMU never gets the pid of the running manager, so the first case is the real one;
   * the second is what the model answers for a launch pid it cannot rule out.)
   */
  lemma StartThenStop(h: Host, name: string, mode: string, kvm: bool, pid: Pid)
    requires HostValid(h)
    requires name in h.vms && LivePid(h, name).None?
    ensures var started := Start(h, name, mode, kvm, Some(pid)).0;
            pid == h.ownPid ==> Stop(started, name, true) == (started, Terminated)
    ensures var started := Start(h, name, mode, kvm, Some(pid)).0;
            var stopped := Stop(started, name, true);
            pid != h.ownPid ==>
            && stopped.1 == Stopped(pid)
            && name !in stopped.0.pidFiles
            && stopped.0.vms[name].state == STOPPED
  {
    StartLaunches(h, name, mode, kvm, pid);
  }

  lemma StopPreservesValid(h: Host, name: string, permitted: bool)
    requires HostValid(h)
    ensures HostValid(Stop(h, name, permitted).0)
  {
    if name in h.vms {
      OrderedInsert(h.vms, h.order, name, h.vms[name].(state := STOPPED));
    }
  }

  // ---------------------------------------------------------------------------------------
  // delete_vm

  /** An unknown name, or a VM with a pid file when force is not given, is refused and nothing changes. */
  lemma DeleteRefused(h: Host, name: string, force: bool, permitted: bool)
    requires name !in h.vms || (name in h.pidFiles && !force)
    ensures Delete(h, name, force, permitted).0 == h
    ensures !Delete(h, name, force, permitted).1.Deleted?
  {
  }

  /**
   * Otherwise the record, its key and its disk image are gone, and the other VMs are untouched,
   * unless the forced stop ends the manager, which then deletes nothing.
   */
  lemma DeleteRemoves(h: Host, name: string, force: bool, permitted: bool)
    requires name in h.vms && (name !in h.pidFiles || force)
    ensures StopEndsManager(h, name) ==> Delete(h, name, force, permitted) == (h, DeleteTerminated)
    ensures !StopEndsManager(h, name) ==>
            var r := Delete(h, name, force, permitted);
            && r.1 == Deleted
            && r.0.vms.Keys == h.vms.Keys - {name}
            && (forall k :: k in r.0.vms ==> r.0.vms[k] == h.vms[k])
            && r.0.order == RemoveKey(h.order, name)
            && r.0.disks == h.disks - {DiskPath(name)}
            && (forall k :: k != name ==> (k in r.0.pidFiles <==> k in h.pidFiles))
  {
  }

  /**
   * With force, a stop that fails (here, the signal is refused) is ignored: the VM is deleted
   * but its pid file stays behind.
   */
  lemma ForceDeleteLeavesStalePidFile(h: Host, name: string)
    requires name in h.vms && name in h.pidFiles
    ensures StopEndsManager(h, name) ==> Delete(h, name, true, false) == (h, DeleteTerminated)
    ensures !StopEndsManager(h, name) ==>
            var r := Delete(h, name, true, false);
            r.1 == Deleted && name !in r.0.vms && name in r.0.pidFiles
  {
  }

  lemma DeletePreservesValid(h: Host, name: string, force: bool, permitted: bool)
    requires HostValid(h)
    ensures HostValid(Delete(h, name, force, permitted).0)
  {
    if name in h.vms && (name !in h.pidFiles || force) {
      var h' := if name in h.pidFiles then Stop(h, name, permitted).0 else h;
      StopPreservesValid(h, name, permitted);
      OrderedRemove(h'.vms, h'.order, name);
    }
  }

  // ---------------------------------------------------------------------------------------
  // list_vms

  /** A table line shows the named VM: its name, the state its pid file implies, and its record's settings. */
  predicate ShowsVm(h: Host, row: Row, name: string)
    requires name in h.vms
  {
    && row.name == name
    && row.state == (if name in h.pidFiles then RUNNING else STOPPED)
    && row.memory == h.vms[name].memory
    && row.cpus == h.vms[name].cpus
    && row.mac == h.vms[name].mac
  }

  lemma {:induction false} RowsOfNames(h: Host, names: seq<string>)
    requires forall n :: n in names ==> n in h.vms
    ensures |Rows(h, names)| == |names|
    ensures forall j :: 0 <= j < |names| ==> ShowsVm(h, Rows(h, names)[j], names[j])
  {
    if names != [] {
      var init, name := names[..|names| - 1], names[|names| - 1];
      forall n | n in init ensures n in names {
        var k :| 0 <= k < |init| && init[k] == n;
        assert names[k] == n;
      }
      RowsOfNames(h, init);
      var rows, prev := Rows(h, names), Rows(h, init);
      assert rows[..|init|] == prev;
      assert ShowsVm(h, rows[|init|], name);
    }
  }

  /**
   * `list_vms` reports no VMs exactly when the table is empty; otherwise one line per VM, in
   * table order, showing running exactly when the VM has a pid file, whatever state its record
   * stores.
   */
  lemma ListReflectsPidFiles(h: Host)
    requires HostValid(h)
    ensures List(h).NoVms? <==> h.vms == map[]
    ensures List(h).Table? ==>
              var rows := List(h).rows;
              && |rows| == |h.order|
              && forall j :: 0 <= j < |rows| ==>
                   && rows[j].name == h.order[j]
                   && (rows[j].state == RUNNING <==> h.order[j] in h.pidFiles)
                   && rows[j].memory == h.vms[h.order[j]].memory
                   && rows[j].cpus == h.vms[h.order[j]].cpus
                   && rows[j].mac == h.vms[h.order[j]].mac
  {
    RowsOfNames(h, h.order);
  }

  /** A record that says running but has no pid file is listed as stopped. */
  lemma ListIgnoresStoredState(h: Host, j: int)
    requires HostValid(h) && 0 <= j < |h.order|
    requires h.vms[h.order[j]].state == RUNNING && h.order[j] !in h.pidFiles
    ensures List(h).Table? && j < |List(h).rows| && List(h).rows[j].state == STOPPED
  {
    assert h.order[j] in h.vms;
    RowsOfNames(h, h.order);
  }
}
