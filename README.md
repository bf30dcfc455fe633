# discotool device discovery, modelled in Dafny

discotool finds USB microcontroller boards, CircuitPython boards in particular. It joins
three unrelated sources into one record per board: the USB device tree, the serial
ports (pyserial `comports()`), and the mounted volumes. Each record holds the name,
vendor and product ids, serial number, manufacturer, serial ports, volumes and
firmware version.

There is one provider per platform:

- macOS walks the `system_profiler` tree.
- Linux walks the udev `usb_device` list.
- Windows joins pyserial ports with WMI disk drives. A separate walker decodes the raw
  `DeviceIoControl` replies of host controllers and hubs.

Every provider threads a shrinking pool of not yet claimed serial ports through its
loop. Above the providers sit:

- the `DeviceInfoDict` view with its `devices_by_*` filters;
- the `discotool` command line's device selection and REPL port choice;
- the selection of the older `usbtool.py` script, which does not de-duplicate.

Every operating-system source is an input value:

- the profiler tree, the udev devices and children, the WMI disks, the serial ports,
  the partition list;
- `Drives`, a function from a mount point to the files present and the optional
  contents of `boot_out.txt`;
- `Host` for the Windows walker: which paths open, what each control request answers
  (None where it raises), the UTF-16LE decoder, and the system language id.

Python exceptions that the code does not catch become `Err` values of `PyError`, except the few that "## Left out" names. Among these is an unreadable `boot_out.txt` (UsbinfosCommon.GetCpDriveInfo).

Modules and files:

- `Wrappers` (`wrappers.dfy`): Option, Result and the Python exceptions.
- `Text` (`text.dfy`): ASCII string operations.
- `Records` (`records.dfy`): port, tty, volume and device records; filters; the mount
  table.
- `UsbinfosCommon` (`common.dfy`).
- `UsbinfosMacos` (`macos.dfy`). The pool is the field of the class `MacProfiler`.
- `UsbinfosLinux` (`linux.dfy`).
- `UsbinfosWin32` (`win32.dfy`).
- `UsbDescriptorWin32` (`descriptor.dfy`).
- `Usbinfos` (`info.dfy`): `DeviceInfoDict`, `get_devices_list` and `get_identified_devices` with the provider the platform selects, and `devices_by_*`.
- `Discotool` (`discotool.dfy`).
- `Usbtool` (`usbtool.dfy`).

Each loop of the source is a method. It is proved equal to a recursive specification
function, and the properties are lemmas about that function.

## Model

| member | source | states |
|---|---|---|
| UsbinfosCommon.VidsAreSevenDistinct | discotool/usbinfos/usbinfos_common.py:4-12 | The allow-list holds seven distinct vendor ids. Adafruit 0x239a and Arduino 0x2341 are on it; 0x1a86 is not. |
| UsbinfosCommon.ListMains | discotool/usbinfos/usbinfos_common.py:14-21 | The mains are a subsequence of code.txt, code.py, main.py, main.txt: a name is listed iff it is one of the four and exists on the drive, in that fixed order. |
| UsbinfosCommon.BootVersion | discotool/usbinfos/usbinfos_common.py:22-28 | The version never contains a space or `;`. It is "" when boot_out.txt is missing, when it does not contain exactly one `;` (the unpacking ValueError), and when the text before the `;` has fewer than three space-separated words (the IndexError of `[-3]`). |
| UsbinfosCommon.BootVersionFindsWord | discotool/usbinfos/usbinfos_common.py:24-26 | The contents are at least three space-free words joined by spaces, then `;`, then a `;`-free rest. The version is then the third-from-last word. |
| UsbinfosCommon.GetCpDriveInfo | discotool/usbinfos/usbinfos_common.py:17-29 | A drive's mains are exactly the present entry files. The version is "" when boot_out.txt is missing. |
| Records.Identified | discotool/usbinfos/usbinfos_macos.py:126 | The initial pool holds exactly the ports that carry a USB vid/pid. |
| Records.BuildMountTable | discotool/usbinfos/usbinfos_linux.py:16-18 | The loop builds the partition-to-mount map `MountTable`. Its keys are exactly the partitions' devices. |
| Records.MountTableLastWins | discotool/usbinfos/usbinfos_macos.py:129-131 | A device listed once more later maps to its last partition's mount point: later assignments overwrite. |
| UsbinfosLinux.ClaimTtyPorts | discotool/usbinfos/usbinfos_linux.py:39-50 | A tty child takes every pool port with its path, in pool order, and those ports leave the pool. A path found in no port is added with interface "". |
| UsbinfosLinux.ScanChildDevices | discotool/usbinfos/usbinfos_linux.py:38-60 | The child loop agrees with the specification `ScanChildren`; ScanChildrenTtys, ScanChildrenPool and ScanChildrenVolumes state what that gathers. |
| UsbinfosLinux.DropAncestors | discotool/usbinfos/usbinfos_linux.py:63-68 | When `traverse()` yields an ancestor, every earlier record whose devpath is a string prefix of the current devpath is removed, and the others keep their order. |
| UsbinfosLinux.GetDevicesList | discotool/usbinfos/usbinfos_linux.py:14-85 | The device loop returns exactly the specification `DevicesList`: the records without devpath and the unclaimed ports. |
| UsbinfosLinux.StripDevpaths | discotool/usbinfos/usbinfos_linux.py:83-84 | Deleting `devpath` keeps every record, in order, with all its other fields. |
| UsbinfosLinux.StripAppend | discotool/usbinfos/usbinfos_linux.py:81-84 | Stripping distributes over appending a record. |
| UsbinfosLinux.HubIsSkipped | discotool/usbinfos/usbinfos_linux.py:29-30 | A hub (TYPE base class "9") leaves both the records and the pool unchanged: no claim, no volume join, no collapse. |
| UsbinfosLinux.ScanChildrenPool | discotool/usbinfos/usbinfos_linux.py:43-47 | After one device's children, the pool is the old pool minus every port whose path is one of the tty DEVNAMEs. |
| UsbinfosLinux.ScanChildrenTtys | discotool/usbinfos/usbinfos_linux.py:38-50 | A device has a tty iff it has a tty child with a DEVNAME, whether or not the pool matched it. The tty list only grows. |
| UsbinfosLinux.ChildStepVolumes | discotool/usbinfos/usbinfos_linux.py:51-60 | A child adds one volume, mounted at its mount-table entry, and sets the version iff it is a partition whose DEVNAME is in the table. Any other child leaves both alone. |
| UsbinfosLinux.JoinedChildrenSnoc | discotool/usbinfos/usbinfos_linux.py:55-60 | Appending the volume of one more mounted partition extends the one-volume-per-partition correspondence. |
| UsbinfosLinux.ScanChildrenVolumes | discotool/usbinfos/usbinfos_linux.py:38-60 | The volumes are the earlier ones followed by exactly one volume per partition child whose DEVNAME is in the mount table, in child order. Each is mounted at `mounts[DEVNAME]`. The version is that of the last such child. |
| UsbinfosLinux.ChildVolumesIff | discotool/usbinfos/usbinfos_linux.py:51-60 | A volume belongs to a device iff some partition child has its DEVNAME in the mount table and the volume is that child's mount point and mains. |
| UsbinfosLinux.JoinedChildrenIff | discotool/usbinfos/usbinfos_linux.py:51-60 | If the volumes are the join over exactly the mounted partition children, then a volume is among them iff it is the volume of some mounted partition child. |
| UsbinfosLinux.JoinedMembers | discotool/usbinfos/usbinfos_linux.py:51-60 | A volume is in the join over a list of children iff it is the volume of a mounted partition child in that list. |
| UsbinfosLinux.MountedMembers | discotool/usbinfos/usbinfos_linux.py:51-54 | A child is kept by the mount test iff it is a partition whose DEVNAME is in the mount table. |
| UsbinfosLinux.RemainingPool | discotool/usbinfos/usbinfos_linux.py:20-85 | The returned pool is the initial pool minus every port claimed by the tty children of some non-hub device. |
| UsbinfosLinux.GateHolds | discotool/usbinfos/usbinfos_linux.py:70 | Every kept record has a known vendor id or at least one tty. |
| UsbinfosLinux.FilterOutKeepsPrefixFree | discotool/usbinfos/usbinfos_linux.py:68 | Filtering a prefix-free record list keeps it prefix-free. |
| UsbinfosLinux.CollapseLeavesPrefixFree | discotool/usbinfos/usbinfos_linux.py:63-81 | When every device has an ancestor, the loop keeps the records prefix-free: no devpath is a prefix of a later one. |
| UsbinfosLinux.ScanIsPrefixFree | discotool/usbinfos/usbinfos_linux.py:63-81 | In the final list no record's devpath is a string prefix of a later record's devpath, and every record passed the gate. |
| UsbinfosMacos.ParsePid | discotool/usbinfos/usbinfos_macos.py:45-49 | A missing or unparsable product_id gives pid 0. The node is not skipped. |
| UsbinfosMacos.LocationOf | discotool/usbinfos/usbinfos_macos.py:73 | The location is the first whitespace-free token after the first two characters of location_id. A missing key is a KeyError and a blank remainder an IndexError. |
| UsbinfosMacos.ClaimedStep | discotool/usbinfos/usbinfos_macos.py:64-78 | Visiting one more port adds it to the claimed ports or to the kept ports, by the node's claim test. |
| UsbinfosMacos.CollectVolumes | discotool/usbinfos/usbinfos_macos.py:89-115 | The media loop returns the volumes and version of the specification `ScanMedia`, whose volumes ScanMediaVolumes characterises. The version is that of the last mount point whose drive was read (`LastRead`), or "" when none was. |
| UsbinfosMacos.GatheredMedia | discotool/usbinfos/usbinfos_macos.py:92-112 | From any starting state, the media loop appends one unnamed volume per found mount point, in media order, and the carried `mains` after it are the last volume's. |
| UsbinfosMacos.ScanMediaVolumes | discotool/usbinfos/usbinfos_macos.py:89-115 | An admitted node's volumes are, in media order, each media's `volumes` entries that have a `mount_point`, then its `bsd_name` mount when `/dev/<bsd_name>` is in the mount table. Each is mounted there with no name. A bsd join, or any volume under `drive_info`, lists that drive's own entry files. Otherwise a volume repeats the previous volume's entry files, or none for the first. |
| UsbinfosMacos.VolumeFoundIff | discotool/usbinfos/usbinfos_macos.py:95-98 | A media contributes a `volumes` mount point iff one of its entries has that `mount_point`. |
| UsbinfosMacos.MediaFoundIff | discotool/usbinfos/usbinfos_macos.py:92-112 | Both directions of the join: a mount point is found from a `volumes` entry iff some media lists it, and from a `bsd_name` iff some media's `/dev/<bsd_name>` maps to it in the mount table. |
| UsbinfosMacos.ScanMediaVersion | discotool/usbinfos/usbinfos_macos.py:89-115 | The version after the media loop is the `boot_out.txt` version of the last found mount point whose drive was read, or the starting version when none was. Every bsd join reads its drive; a `volumes` entry reads it only under `drive_info`. |
| UsbinfosMacos.ScanVolumesVersion | discotool/usbinfos/usbinfos_macos.py:95-104 | The same for the `volumes` entries of one media. |
| UsbinfosMacos.ClaimsPort | discotool/usbinfos/usbinfos_macos.py:66-78 | The test for one port fails iff the node has no serial and no usable location. Otherwise it is the claim test. |
| UsbinfosMacos.MacProfiler.constructor | discotool/usbinfos/usbinfos_macos.py:126 | The pool starts as the identified ports. |
| UsbinfosMacos.MacProfiler.ClaimPorts | discotool/usbinfos/usbinfos_macos.py:63-79 | The ttys are the claimed ports in pool order, and the pool keeps exactly the unclaimed ones. When the location raises, the pool is unchanged. |
| UsbinfosMacos.MacProfiler.ReadNode | discotool/usbinfos/usbinfos_macos.py:33-116 | One node's record and pool update agree with the specification `NodeStep`. |
| UsbinfosMacos.MacProfiler.ReadSysProfile | discotool/usbinfos/usbinfos_macos.py:26-117 | The depth-first walk, each node after its `_items`, agrees with the specification `WalkSeq`, including the first exception. |
| UsbinfosMacos.DevicePaths | discotool/usbinfos/usbinfos_macos.py:135 | The remaining ports are returned as their device paths, one for one, in pool order. |
| UsbinfosMacos.GetDevicesList | discotool/usbinfos/usbinfos_macos.py:119-136 | `get_devices_list` agrees with the specification `DevicesList`. |
| UsbinfosMacos.NodeWithoutVidIsSkipped | discotool/usbinfos/usbinfos_macos.py:36-42 | A node without vendor_id, or whose first vendor_id token is not hex, claims nothing and adds nothing. |
| UsbinfosMacos.ClaimBySerial | discotool/usbinfos/usbinfos_macos.py:66-70 | With a serial, a pool port is claimed iff its vid, pid and serial all equal the node's. |
| UsbinfosMacos.ClaimByLocation | discotool/usbinfos/usbinfos_macos.py:72-78 | Without a serial, a pool port is claimed iff its path starts with /dev/cu.usbmodem or /dev/cu.usbserial- followed by the location. |
| UsbinfosMacos.ClaimNeedsLocation | discotool/usbinfos/usbinfos_macos.py:72-73 | Without a serial, a non-empty pool and a missing or blank location_id, the walk raises. |
| UsbinfosMacos.PrefixesExclusive | discotool/usbinfos/usbinfos_macos.py:74-78 | No path starts with both prefixes, so a port is appended and removed at most once. |
| UsbinfosMacos.AdmitEvolves | discotool/usbinfos/usbinfos_macos.py:63-79 | Appending a record that holds the claimed ports, and removing them from the pool, loses and duplicates no tty, keeps earlier records and keeps pool order. |
| UsbinfosMacos.DropEvolves | discotool/usbinfos/usbinfos_macos.py:84-85 | A node dropped by the gate that claimed nothing is a valid step. |
| UsbinfosMacos.NodeStepEvolves | discotool/usbinfos/usbinfos_macos.py:33-116 | Each node conserves ttys across records and pool, only appends records, and only shrinks the pool in order. |
| UsbinfosMacos.WalkSeqEvolves | discotool/usbinfos/usbinfos_macos.py:26-117 | The same holds for the walk of any list of nodes. |
| UsbinfosMacos.WalkNodeEvolves | discotool/usbinfos/usbinfos_macos.py:30-31 | The same holds for a node together with its subtree. |
| UsbinfosMacos.NodeAfterItsSubtree | discotool/usbinfos/usbinfos_macos.py:28-117 | Records from a node's subtree precede the node's own record. The node adds at most one record, which is last and carries its name. |
| UsbinfosMacos.Gate | discotool/usbinfos/usbinfos_macos.py:84-85 | Claimed ports leave the pool whatever the gate decides. A record is added iff the vid is in VIDS or a port was claimed. |
| UsbinfosMacos.AdmittedRecord | discotool/usbinfos/usbinfos_macos.py:34-116 | An admitted node appends exactly one record after the earlier ones: its name, vid, pid, serial and manufacturer, its claimed ports as ttys in pool order, and its media's volumes and version. The version is characterised by ScanMediaVersion. |
| UsbinfosMacos.GateIgnoresMedia | discotool/usbinfos/usbinfos_macos.py:84-92 | Media and volumes change neither success, nor the pool, nor whether a record is added: the gate comes first. |
| UsbinfosMacos.DevicesListConserves | discotool/usbinfos/usbinfos_macos.py:119-136 | Every identified port ends up in exactly one record or among the remaining paths. The remaining paths keep the original pool order. |
| UsbinfosWin32.FirstLine | discotool/usbinfos/usbinfos_win32.py:10 | The text `.` can match: the longest newline-free prefix. |
| UsbinfosWin32.LastIndexOf | discotool/usbinfos/usbinfos_win32.py:10 | The index of the last occurrence, or None when there is none. |
| UsbinfosWin32.GreedyGroupIsRegexMatch | discotool/usbinfos/usbinfos_win32.py:10-14 | `.*%(.+)%.*` matches iff the line has two `%` at least two apart. The chosen pair is the rightmost in both ends, as greedy matching gives. |
| UsbinfosWin32.FilterPortDescription | discotool/usbinfos/usbinfos_win32.py:9-15 | When the first line has a `%` pair, the result is the text between the greedy pair, as characterised by GreedyGroupIsRegexMatch. Otherwise it is the whole description. In both cases `_` becomes a space and the text is title-cased, so the result has no underscore and is title-stable. |
| UsbinfosWin32.Removable | discotool/usbinfos/usbinfos_win32.py:27-31 | Only DriveType 2 logical disks are kept. |
| UsbinfosWin32.RemovableComplete | discotool/usbinfos/usbinfos_win32.py:28-31 | Every DriveType 2 logical disk of any partition is kept. |
| UsbinfosWin32.RemovableVolumes | discotool/usbinfos/usbinfos_win32.py:27-31 | The nested partition loop builds exactly `Removable`. |
| UsbinfosWin32.ScanDisks | discotool/usbinfos/usbinfos_win32.py:21-36 | The candidates start with the port serials, unchanged. Every mount is of a USB disk from the input and holds exactly that disk's removable logical disks. |
| UsbinfosWin32.ScanDisksExact | discotool/usbinfos/usbinfos_win32.py:21-36 | There is exactly one mount per USB disk, in disk order. The candidates are the port serials, in pool order, followed by the USB disks' serial numbers in the same order. |
| UsbinfosWin32.MountsOfSnoc | discotool/usbinfos/usbinfos_win32.py:25-35 | One more USB disk adds its mount at the end and keeps the earlier mounts. |
| UsbinfosWin32.SerialsOfSnoc | discotool/usbinfos/usbinfos_win32.py:25-35 | One more USB disk appends its serial number to the candidates and keeps the earlier ones. |
| UsbinfosWin32.PortSerials | discotool/usbinfos/usbinfos_win32.py:21 | One candidate per pool port, holding that port's serial, in pool order. |
| UsbinfosWin32.LastFields | discotool/usbinfos/usbinfos_win32.py:52-57 | The fields of the last claimed port, or none when no port matched. |
| UsbinfosWin32.ClaimSerialStep | discotool/usbinfos/usbinfos_win32.py:53-60 | Visiting one more port adds it to the claimed ports iff its serial equals the candidate. |
| UsbinfosWin32.ClaimSerial | discotool/usbinfos/usbinfos_win32.py:52-62 | The ttys are those of the matching ports in pool order, and the pool keeps exactly the other ports. vid, pid, name and manufacturer come from the last match. |
| UsbinfosWin32.SomesOfCleared | discotool/usbinfos/usbinfos_win32.py:60-62 | Setting the claimed slots to None and filtering them out gives the pool minus the claimed ports. |
| UsbinfosWin32.Slots | discotool/usbinfos/usbinfos_win32.py:52 | The slot list starts with every pool port present. |
| UsbinfosWin32.CollectVolumes | discotool/usbinfos/usbinfos_win32.py:66-78 | The disk loop agrees with the specification `ScanMounts`. |
| UsbinfosWin32.AddDiskVolumes | discotool/usbinfos/usbinfos_win32.py:72-78 | The inner loop over a matching disk's logical disks agrees with the specification `ScanVolumes`, whose volumes ScanVolumesFrom characterises. |
| UsbinfosWin32.GetDevicesList | discotool/usbinfos/usbinfos_win32.py:17-90 | `get_devices_list` agrees with the specification `DevicesList`. |
| UsbinfosWin32.PoolEmptied | discotool/usbinfos/usbinfos_win32.py:18-62 | Every pool port's serial is a candidate, so the returned remaining pool is always empty. |
| UsbinfosWin32.WinStepMoves | discotool/usbinfos/usbinfos_win32.py:52-64 | A candidate removes exactly its matching ports from the pool, and the records gain exactly their ttys. |
| UsbinfosWin32.WinStepConserves | discotool/usbinfos/usbinfos_win32.py:52-88 | A candidate loses and duplicates no tty between records and pool. |
| UsbinfosWin32.WinScanConserves | discotool/usbinfos/usbinfos_win32.py:42-88 | The same holds over all candidates. |
| UsbinfosWin32.DevicesListConserves | discotool/usbinfos/usbinfos_win32.py:17-90 | The records hold every identified port's tty exactly once. |
| UsbinfosWin32.WinStepApart | discotool/usbinfos/usbinfos_win32.py:52-64 | Each step keeps three facts: record serials are distinct, every record has a port, and no pool port carries a record's serial. |
| UsbinfosWin32.WinScanApart | discotool/usbinfos/usbinfos_win32.py:42-88 | The same holds over all candidates. |
| UsbinfosWin32.DevicesListApart | discotool/usbinfos/usbinfos_win32.py:49-64 | Records have pairwise distinct serial numbers, because a repeated serial finds its ports gone. Every record has a port, so a disk-only serial makes no record. |
| UsbinfosWin32.ScanVolumesKeepsName | discotool/usbinfos/usbinfos_win32.py:72-78 | Adding volumes never changes the name. |
| UsbinfosWin32.ScanMountsKeepsName | discotool/usbinfos/usbinfos_win32.py:70-71 | A non-empty port name is never replaced by a disk caption. |
| UsbinfosWin32.ScanMountsNoMatch | discotool/usbinfos/usbinfos_win32.py:69 | Disks with another serial contribute nothing. |
| UsbinfosWin32.RecordKeepsPortName | discotool/usbinfos/usbinfos_win32.py:56-82 | A record is named after its last claimed port's filtered description whenever that is non-empty. |
| UsbinfosWin32.ScanVolumesFrom | discotool/usbinfos/usbinfos_win32.py:72-78 | The volume loop appends exactly one volume per logical disk, in order: mount point `DeviceID + "\"`, no name, that drive's mains. The version is the last disk's. |
| UsbinfosWin32.AppendedSnoc | discotool/usbinfos/usbinfos_win32.py:72-78 | One more logical disk appends its volume at the end and keeps the earlier volumes. |
| UsbinfosWin32.ScanVolumesSnoc | discotool/usbinfos/usbinfos_win32.py:72-78 | One more logical disk appends the volume mounted at its drive root, and the version becomes that drive's version. |
| UsbinfosWin32.ScanMountsVolumes | discotool/usbinfos/usbinfos_win32.py:68-78 | Every collected volume is the volume of a logical disk of a mount whose disk has the candidate's serial. |
| UsbinfosWin32.MountStepFromDisks | discotool/usbinfos/usbinfos_win32.py:68-78 | One disk step keeps every volume drawn from a matching disk. A disk with another serial adds nothing. A matching disk adds only its own removable logical disks. |
| UsbinfosWin32.MountStepAppends | discotool/usbinfos/usbinfos_win32.py:69-78 | A disk with the candidate's serial appends one volume per logical disk of its mount, in order. A disk with another serial changes nothing. |
| UsbinfosWin32.ScanMountsComplete | discotool/usbinfos/usbinfos_win32.py:68-78 | Every logical disk of every mount whose disk has the candidate's serial becomes one of the candidate's volumes. |
| UsbinfosWin32.VolumeOfDiskWiden | discotool/usbinfos/usbinfos_win32.py:68 | A volume found among the first mounts stays found when more mounts follow. |
| UsbinfosWin32.VolumeOfDiskAt | discotool/usbinfos/usbinfos_win32.py:72-78 | The volume of a matching mount's logical disk counts as found. |
| UsbinfosWin32.RecordVolumes | discotool/usbinfos/usbinfos_win32.py:66-88 | A record carries the candidate's serial. Its volumes are exactly the volumes of the logical disks of the mounts with that serial. |
| UsbinfosWin32.WinStepJoins | discotool/usbinfos/usbinfos_win32.py:42-88 | One candidate keeps that join for every record. |
| UsbinfosWin32.WinScanJoins | discotool/usbinfos/usbinfos_win32.py:42-88 | The candidate loop keeps that join for every record. |
| UsbinfosWin32.MountVolumeIsUsb | discotool/usbinfos/usbinfos_win32.py:25-35 | A volume of a mount is a DriveType 2 logical disk of a USB disk. |
| UsbinfosWin32.UsbVolumeIsMount | discotool/usbinfos/usbinfos_win32.py:25-35 | Every DriveType 2 logical disk of a USB disk is a volume of that disk's mount. |
| UsbinfosWin32.DevicesListVolumes | discotool/usbinfos/usbinfos_win32.py:17-90 | A returned record's volumes are exactly the removable logical disks of the USB disks with the record's serial number. Each is mounted at `DeviceID + "\"`. |
| UsbDescriptorWin32.UsbCtl | discotool/usbinfos/usb_descriptor_win32.py:49-53 | For a 12-bit function number, the code has device type 0x22 in the top half, the function in bits 2-13, and zero method and access bits. |
| UsbDescriptorWin32.ControlCodes | discotool/usbinfos/usb_descriptor_win32.py:55-60 | The six request codes are 0x220408 (root hub name and node information), 0x22040C, 0x220410, 0x220414 and 0x220420. |
| UsbDescriptorWin32.UsbCtlArithmetic | discotool/usbinfos/usb_descriptor_win32.py:49-53 | The bit packing equals 0x220000 + 4 * id. |
| UsbDescriptorWin32.DecodeConnInfo | discotool/usbinfos/usb_descriptor_win32.py:182 | Decoding fails, with struct.error, iff the reply is shorter than 35 bytes. |
| UsbDescriptorWin32.ConnInfoRoundTrip | discotool/usbinfos/usb_descriptor_win32.py:182 | Whatever the skipped bytes hold, the packed little-endian layout is read back field for field: vid at 12, pid at 14, bcdDevice at 16, string indices at 18-20, hub flag at 24, status at 31. |
| UsbDescriptorWin32.ConnInfoIgnoresTail | discotool/usbinfos/usb_descriptor_win32.py:182 | Only the first 35 bytes of a reply matter. |
| UsbDescriptorWin32.StrRequest | discotool/usbinfos/usb_descriptor_win32.py:135-141 | The string-descriptor request is 12 bytes. |
| UsbDescriptorWin32.StrRequestRoundTrip | discotool/usbinfos/usb_descriptor_win32.py:135-141 | The request reads back as: the connection index (LE u32), two zero bytes, wValue = 0x300 + index (low byte the index, high byte type 3), wIndex = the language id, and wLength = 255. |
| UsbDescriptorWin32.StrDesc | discotool/usbinfos/usb_descriptor_win32.py:134-152 | The result is "" when the request fails, and "" when the reply has at most 16 bytes. What a longer reply yields is stated by StrDescReply. |
| UsbDescriptorWin32.StrDescReply | discotool/usbinfos/usb_descriptor_win32.py:134-152 | A reply is the 12-byte request echo, bLength, type 3, then the text. The result is the decoded text when that is longer than 2 bytes, and "" otherwise, so a one-character string reads as "". |
| UsbDescriptorWin32.RootHubName | discotool/usbinfos/usb_descriptor_win32.py:82-94 | It fails only through a failed request or a probe that is not 6 bytes. |
| UsbDescriptorWin32.RootHubNameReply | discotool/usbinfos/usb_descriptor_win32.py:82-94 | After a 6-byte probe, the second request asks for the probe's ActualLength bytes. A reply of that length field followed by a name gives the decoded name, and a failed second request gives IoctlError. |
| UsbDescriptorWin32.IndexRequest | discotool/usbinfos/usb_descriptor_win32.py:171 | `chr(i)` plus the padding encodes to the UTF-8 length of `chr(i)` plus the padding. |
| UsbDescriptorWin32.ExtHubName | discotool/usbinfos/usb_descriptor_win32.py:118-131 | It fails only through a failed request or a probe that is not 10 bytes. |
| UsbDescriptorWin32.ExtHubNameReply | discotool/usbinfos/usb_descriptor_win32.py:118-131 | After a 10-byte probe, the second request asks for the ActualLength at offset 4. A reply of ConnectionIndex, ActualLength and a name gives the decoded name, and a failed second request gives IoctlError. |
| UsbDescriptorWin32.MakeDeviceInfo | discotool/usbinfos/usb_descriptor_win32.py:25-34 | Serial index 0 gives "". A fetched serial is exactly its upper-cased text, character by character, with no lower-case letter left. |
| UsbDescriptorWin32.LocationSplits | discotool/usbinfos/usb_descriptor_win32.py:34 | The location splits at dots back into the controller and port indices. |
| UsbDescriptorWin32.Fetch | discotool/usbinfos/usb_descriptor_win32.py:194-199 | A string is fetched iff its descriptor index is non-zero. |
| UsbDescriptorWin32.GetHubPorts | discotool/usbinfos/usb_descriptor_win32.py:168-201 | The port loop over 1..n agrees with the specification `PortsOf`, including the reuse of the previous `buf` when a request raises and the failure for port 1. |
| UsbDescriptorWin32.ExamHub | discotool/usbinfos/usb_descriptor_win32.py:155-166 | A hub that does not open gives []. Otherwise its port count is byte 6 of the node information. |
| UsbDescriptorWin32.GetAllDevices | discotool/usbinfos/usb_descriptor_win32.py:204-230 | The controller loop agrees with the specification `AllDevicesOf`. |
| UsbDescriptorWin32.PortsErrSticks | discotool/usbinfos/usb_descriptor_win32.py:170-182 | A failure at one port ends the whole port loop with that failure. |
| UsbDescriptorWin32.ControllersErrSticks | discotool/usbinfos/usb_descriptor_win32.py:207-228 | A failure at one controller ends the controller loop with that failure. |
| UsbDescriptorWin32.NonHubPort | discotool/usbinfos/usb_descriptor_win32.py:191-200 | A non-hub port adds exactly one record when connected (status 1) with a non-zero string index, and nothing otherwise. The record's location extends the hub's with the port index. |
| UsbDescriptorWin32.DotJoinSnoc | discotool/usbinfos/usb_descriptor_win32.py:34 | Extending a location appends a dot and the index's digits. |
| UsbDescriptorWin32.BelowDeeper | discotool/usbinfos/usb_descriptor_win32.py:186 | A device below a port of a hub is below the hub. |
| UsbDescriptorWin32.AllBelowDeeper | discotool/usbinfos/usb_descriptor_win32.py:186-188 | The same holds for a list of devices. |
| UsbDescriptorWin32.HubPortBelow | discotool/usbinfos/usb_descriptor_win32.py:184-188 | The records of a hub found at a port lie below the hub that holds the port. |
| UsbDescriptorWin32.PortStepBelow | discotool/usbinfos/usb_descriptor_win32.py:184-200 | Every record one port adds lies below the hub. |
| UsbDescriptorWin32.PortsBelow | discotool/usbinfos/usb_descriptor_win32.py:168-201 | Every record of a hub's port loop lies below the hub. |
| UsbDescriptorWin32.NodePortsBelow | discotool/usbinfos/usb_descriptor_win32.py:159-164 | Every record of an opened hub lies below the hub. |
| UsbDescriptorWin32.ExamHubBelow | discotool/usbinfos/usb_descriptor_win32.py:155-166 | Every record `exam_hub` returns lies below its location. |
| UsbDescriptorWin32.ControllersBelow | discotool/usbinfos/usb_descriptor_win32.py:207-228 | Every record found under controllers 0..k-1 lies below one of them. |
| UsbDescriptorWin32.AllDevices | discotool/usbinfos/usb_descriptor_win32.py:204-230 | `get_all_devices` fails iff the controller loop fails. Otherwise it keeps, in order, exactly the records whose serial is not "", "0" or "''": each kept one has a real serial and every found record with one is kept. Each lies below one of HCD0..HCD31. |
| Usbinfos.DictOf | discotool/usbinfos/usbinfos_macos.py:34-115 | A provider record as a dict has volumes, ports and name keys. |
| Usbinfos.LastPort | discotool/usbinfos/__init__.py:66-70 | The index of the last port whose "CDC2" test has the given outcome, or None iff there is none. |
| Usbinfos.FirstVolume | discotool/usbinfos/__init__.py:59-61 | Reading the first volume fails iff it lacks `mount_point` or `name`. |
| Usbinfos.MakeDeviceInfoDict | discotool/usbinfos/__init__.py:35-70 | The constructor, with its last-writer-wins port loop, agrees with the specification `InfoOf`. |
| Usbinfos.InfoAttributes | discotool/usbinfos/__init__.py:38-62 | Each of the eight keys becomes an attribute, None when absent. `vid`/`pid` alias the ids and `volume` aliases `drive`. |
| Usbinfos.InfoDrive | discotool/usbinfos/__init__.py:57-62 | With no volumes, `drive` is None and `volume_name` is "". Otherwise both come from the first volume. |
| Usbinfos.InfoPorts | discotool/usbinfos/__init__.py:64-70 | `data` is the dev of the last port whose interface contains "CDC2" (case-sensitive). `repl` is the dev of the last port whose interface does not. Each is None iff no such port exists. |
| Usbinfos.ProviderVolumesFail | discotool/usbinfos/__init__.py:59-61 | A provider record with a volume raises KeyError("name"), because providers never set a volume's name. |
| Usbinfos.WrapAll | discotool/usbinfos/__init__.py:76-83 | Wrapping succeeds iff every record wraps, and keeps order and length. A failure is some record's own failure. |
| Usbinfos.InfoOf | discotool/usbinfos/__init__.py:35-70 | Building the view fails iff `volumes` or `ports` is missing or the first volume lacks `mount_point` or `name`. Only KeyError escapes. |
| Usbinfos.DevicesList | discotool/usbinfos/__init__.py:18-78 | `_get_devices_list(drive_info)` raises TypeError iff the platform's provider takes no argument (Linux, Windows). On macOS it fails iff wrapping fails; on success the remaining ports pass through unchanged. |
| Usbinfos.IdentifiedDevices | discotool/usbinfos/__init__.py:18-83 | `get_identified_devices` raises TypeError iff the provider takes no argument. On macOS it is the wrapped records, and fails iff wrapping fails. |
| Usbinfos.ParameterlessProvidersFail | discotool/usbinfos/__init__.py:18-83 | With the Linux or Windows provider, `get_devices_list` and `get_identified_devices` raise TypeError whatever the provider would return. |
| Usbinfos.ProviderListFails | discotool/usbinfos/__init__.py:76-78 | With the macOS provider, when any record has a volume and no volume carries a name, `get_devices_list` raises KeyError("name"). |
| Usbinfos.UnidentifiedPorts | discotool/usbinfos/__init__.py:86-88 | `get_unidentified_ports` always raises NameError. |
| Usbinfos.SelectByFilters | discotool/usbinfos/__init__.py:94-118 | A filter fails iff some device lacks the attribute. Otherwise it keeps, in list order, exactly the matching devices. |
| Usbinfos.DevicesBy | discotool/usbinfos/__init__.py:95-100 | The append loop agrees with the specification `SelectBy`. |
| Usbinfos.SelectByErrSticks | discotool/usbinfos/__init__.py:97-99 | A failure on some device ends the loop with that failure. |
| Usbinfos.DevicesByName | discotool/usbinfos/__init__.py:94-100 | Selection is by case-insensitive substring of the name. |
| Usbinfos.DevicesByDrive | discotool/usbinfos/__init__.py:103-109 | Selection is by case-insensitive equality of the volume name. |
| Usbinfos.DevicesBySerial | discotool/usbinfos/__init__.py:112-118 | Selection is by case-insensitive equality of the serial number. |
| Usbinfos.ByDriveNeverFails | discotool/usbinfos/__init__.py:103-109 | `devices_by_drive` never fails. It keeps exactly the devices whose volume name equals the query, ignoring case. |
| Usbinfos.SubstringVersusWhole | discotool/usbinfos/__init__.py:98-107 | Whole-string matching implies substring matching but not conversely: a query of another length never matches whole, while any prefix of a value matches as a substring. |
| Discotool.AnyNameIff | discotool/discotool.py:58-62 | The `any` over names holds iff some name plus the suffix, lower-cased, occurs in the lower-cased interface. |
| Discotool.SerialInterfaces | discotool/discotool.py:54-62 | IS_REPL and IS_CDC2 hold iff the interface contains "CircuitPython", "StringCarM0Ex" or "Sol" followed by " CDC " (resp. " CDC2 "), ignoring case. |
| Discotool.KnownInterfaces | discotool/discotool.py:54-62 | An interface name holding a listed board name followed by " CDC " is a REPL, and one followed by " CDC2 " is a CDC2 channel, whatever text surrounds it. |
| Discotool.AnyNameInside | discotool/discotool.py:54-62 | The `any` test finds any listed name followed by the suffix wherever it sits. |
| Discotool.FoundInside | discotool/discotool.py:54-62 | A case-blind search finds a string placed anywhere inside another. |
| Discotool.Hit | discotool/discotool.py:122-138 | A criterion raises iff it is the serial criterion and the device has no serial number. |
| Discotool.AddIfNew | discotool/discotool.py:124-125 | The device is in the result, which holds exactly the earlier devices and it. |
| Discotool.PassFails | discotool/discotool.py:121-132 | A criterion's loop fails iff some device's test raises. |
| Discotool.PassSelects | discotool/discotool.py:121-140 | A successful loop keeps the selection duplicate-free and extends it. Afterwards it holds exactly the earlier picks and the matching devices. |
| Discotool.PassOrder | discotool/discotool.py:121-140 | The devices a loop adds are a subsequence of the device list. |
| Discotool.PassErrSticks | discotool/discotool.py:128-132 | A failure on some device ends the loop with that failure. |
| Discotool.SelectionProps | discotool/discotool.py:114-141 | Selection fails iff a serial query meets a device without a serial number. Otherwise the result has no duplicates (value equality) and starts with the auto pick. It holds exactly the list devices picked by auto (exactly one device), name, serial or a mount point. |
| Discotool.SelectionOrder | discotool/discotool.py:117-140 | The result is the auto pick, then new name matches, then new serial matches, then new mount matches, each in list order. Earlier picks keep their positions. |
| Discotool.FindTheDevices | discotool/discotool.py:114-141 | The loops agree with the specification `Selection`. |
| Discotool.NameLoop | discotool/discotool.py:120-125 | The name loop agrees with its pass. |
| Discotool.SerialLoop | discotool/discotool.py:127-132 | The serial loop agrees with its pass, AttributeError included. |
| Discotool.MountLoop | discotool/discotool.py:134-140 | The nested mount loop agrees with its pass. Only volumes with a mount point count. |
| Discotool.MainSelection | discotool/discotool.py:223-261 | With no criteria after lower/strip and no `--auto`, the commands act on the whole device list. |
| Discotool.AutoAlone | discotool/discotool.py:117-118 | `--auto` alone is a criterion: it selects nothing unless the list has exactly one device. |
| Discotool.FirstRepl | discotool/discotool.py:299-304 | The index of the first REPL port, or None iff there is none. |
| Discotool.FilterRepl | discotool/discotool.py:299-301 | `potential_ports` is empty iff no port is a REPL, and its head is the first REPL port. |
| Discotool.ReplPortChoice | discotool/discotool.py:293-304 | A device without ports is skipped. A single port is used. Otherwise the first REPL port is used, falling back to the first port. |
| Discotool.ReplTargetsCover | discotool/discotool.py:291-309 | Every selected device with a port gets one connection, to one of its own ports. |
| Discotool.Repl | discotool/discotool.py:290-310 | The loop agrees with the specification `ReplTargets`. |
| Usbtool.VolumeCount | usbtool.py:100-103 | The number of matching volumes is at most the number of volumes. |
| Usbtool.VolumeCountFilters | usbtool.py:100-103 | The count is exactly the number of volumes that have a mount point containing the query. |
| Usbtool.MountHitsCount | usbtool.py:98-103 | The mount loop appends each device once per matching volume, counting multiplicity. |
| Usbtool.FilterCount | usbtool.py:86-96 | A name or serial loop keeps every occurrence of a matching device. |
| Usbtool.Multiplicity | usbtool.py:81-103 | A device's count in the selection is the sum of four terms: 1 for the auto pick; its occurrences for a name match; its occurrences for a serial match; occurrences times matching volumes for a mount query. Nothing is de-duplicated. |
| Usbtool.SelectedTwice | usbtool.py:86-96 | A board matching both name and serial is selected twice. |
| Usbtool.SelectBoards | usbtool.py:81-103 | The append loops agree with the specification `Selection`. |
| Usbtool.MatchLoop | usbtool.py:87-90 | A name or serial loop keeps the matching boards in order. |
| Usbtool.MountLoop | usbtool.py:99-103 | The nested mount loop agrees with `MountHits`. |
| Usbtool.RunCommandSelector | usbtool.py:65-159 | The normalisation, selection and actions agree with the specification `Run`. |
| Usbtool.Actions | usbtool.py:107-159 | The action part agrees with the specification `Act`. |
| Usbtool.NothingAsked | usbtool.py:74-103 | With no criteria the selection itself is empty. |
| Usbtool.ActTargets | usbtool.py:110-159 | With no criteria, backup and eject act on the whole list, circup only after a backup has replaced the selection, and no REPL opens. With criteria every action uses the selection. |
| Usbtool.ActRepl | usbtool.py:136-146 | Without backup or circup, only the first selected device's first port is opened, and a first device with no port raises IndexError. |
| Usbtool.Dashes | usbtool.py:36 | `"-" * k` has max(k, 0) dashes. |
| Usbtool.HeaderLine | usbtool.py:36 | The header starts with "- name ". It is 73 characters for a name of at most 70 characters, otherwise the name plus 3. |

## Left out

- Collecting data from the operating system is not modelled. This covers `system_profiler`/`subprocess`, pyudev `Context`, `children` and `traverse`, WMI associators, pyserial `comports()`, `psutil.disk_partitions()` and file-existence tests. Their results are input values, and `traverse()` is reduced to a flag saying whether it yields an ancestor.
- The Win32 calls `CreateFile`, `DeviceIoControl`, `GetSystemDefaultLangID` and `close` are the `Host` oracle, and UTF-16LE decoding with `backslashreplace` is its uninterpreted `decode`. Only the byte offsets and lengths are modelled.
- `get_driverkey_name` is not modelled, because nothing calls it. The unused `level` argument is dropped.
- UsbDescriptorWin32.GetHubPorts: the `except TypeError` around the hub recursion is not modelled. None of the walker's modelled failures is a TypeError, and the recursion limit is a `fuel` depth that raises RecursionLimit.
- Python `int(x, 16)` parsing is ASCII hex digits with an optional `0x` prefix. Signs, underscores and surrounding whitespace are not modelled. `str.lower`, `upper`, `title` and `strip` are ASCII-only.
- `re.match` is modelled only for the one pattern `filter_port_description` uses.
- The Linux vendor and model ids are taken as already parsed integers. A device without ID_MODEL is not modelled: its name is a string.
- Python `os.path.join` is modelled only for `"/dev"` joined with a bsd name.
- `readSysProfile` sets `subGroup['_items'] = None` on the input tree. This is not modelled, because the tree is walked once.
- UsbinfosMacos.MacProfiler.ClaimPorts: the pool is written back once after the claim loop, not by one `list.remove` per port. The loop reads a copy, so for a pool of distinct device paths, as `comports()` yields, the outcome is the same. pyserial ports compare equal by `device`, so with repeated paths `list.remove` would drop the first equal port instead.
- UsbinfosMacos.NodeStep: a node without `_name` is not modelled. Its name is a string, so the KeyError that `subGroup['_name']` raises after the gate never arises.
- The Windows provider's `int(vid)` and `int(pid)` are pyserial's integers. Ports and their USB ids are records.
- The `--wait` retry loops (`time.sleep`, `KeyboardInterrupt`) in discotool.py and usbtool.py are not modelled. They are unbounded I/O retries.
- The click wiring, colours and all printing are not modelled. This includes `displayTheBoardsList`, `displayTheText` beyond its header line, and the `get`/`json` commands with the port sort in `get`.
- The side-effect commands are not modelled: `tree_clean`, `backup` copytree, `eject` osascript, `circup`, `install` and `update`.
- Usbtool.Actions: an action is reduced to the list of devices it acts on. Container naming, the existence test on each mount point, a volume without `mount_point` (KeyError) and circup's argument splitting are not modelled.
- Usbinfos.DevicesBy: the `devices_by_*` functions take the wrapped device list as a parameter instead of calling `get_identified_devices()` themselves. That call raises TypeError on Linux and Windows (Usbinfos.IdentifiedDevices), so there the filters never run.
- Discotool.FindTheDevices: the device list is a parameter. The CLI obtains it from `usbinfos.get_devices_list`, which raises TypeError on Linux and Windows (Usbinfos.DevicesList), so there no command reaches the selection.
- UsbinfosCommon.GetCpDriveInfo: a `boot_out.txt` that exists but cannot be opened or read is not modelled. The file is either missing or has contents. In the source the PermissionError, IsADirectoryError or other OSError escapes the `except`, which catches only FileNotFoundError, ValueError and IndexError. It then propagates out of `get_cp_drive_info` and out of the `get_devices_list` whose volume collection read that drive. The model reports the version "" there instead.
- Usbinfos.MakeDeviceInfoDict: the `setattr` loop is modelled as one field per attribute.
- The earlier copies of the package modules (`usbinfos.py`, `usbinfos/`, the top-level `usbinfos_linux.py` and `usbinfos_common.py`), setup.py, tools/, examples/ and tests/ are not part of this model.
