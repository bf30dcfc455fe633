/**
 * The Windows USB descriptor walker. The host controllers `\\.\HCD0` .. `\\.\HCD31` and
 * their hubs are queried through `DeviceIoControl`; the replies are fixed-layout byte
 * buffers. The operating system is a `Host` value: which device paths open, what each
 * control request answers (None when it raises), the UTF-16LE decoder and the system
 * language id.
 */
module UsbDescriptorWin32 {
  import opened Wrappers
  import opened Text
  import opened Records

  type byte = x: int | 0 <= x < 0x100
  type u16 = x: int | 0 <= x < 0x1_0000
  type u32 = x: int | 0 <= x < 0x1_0000_0000

  // ---------------------------------------------------------------- control codes

  /** `CTL_CODE(DeviceType, Function, Method, Access)`: the four fields packed into one word. */
  function CtlCode(deviceType: bv32, function_: bv32, transfer: bv32, access: bv32): bv32 {
    (deviceType << 16) | (access << 14) | (function_ << 2) | transfer
  }

  /** `USB_CTL(id)`: FILE_DEVICE_USB, METHOD_BUFFERED, FILE_ANY_ACCESS. */
  function UsbCtl(id: bv32): (code: bv32)
    ensures id < 0x1000 ==> code >> 16 == 0x22 && (code >> 2) & 0xFFF == id && code & 0xC003 == 0
  {
    CtlCode(0x22, id, 0, 0)
  }

  const IoctlGetRootHubName: int := UsbCtl(258) as int
  const IoctlGetNodeInformation: int := UsbCtl(258) as int
  const IoctlGetNodeConnectionInformation: int := UsbCtl(259) as int
  const IoctlGetDescriptorFromNodeConnection: int := UsbCtl(260) as int
  const IoctlGetNodeConnectionName: int := UsbCtl(261) as int
  const IoctlGetNodeConnectionDriverkeyName: int := UsbCtl(264) as int

  /** The codes the walker sends; the root-hub-name and node-information requests share one code. */
  lemma ControlCodes()
    ensures IoctlGetRootHubName == IoctlGetNodeInformation == 0x220408
    ensures IoctlGetNodeConnectionInformation == 0x22040C
    ensures IoctlGetDescriptorFromNodeConnection == 0x220410
    ensures IoctlGetNodeConnectionName == 0x220414
    ensures IoctlGetNodeConnectionDriverkeyName == 0x220420
  {
  }

  /** For every function number that fits its 12-bit field, the fields do not overlap: the code is a sum. */
  lemma UsbCtlArithmetic(id: bv32)
    requires id < 0x1000
    ensures UsbCtl(id) == 0x22_0000 + id * 4
  {
  }

  // ---------------------------------------------------------------- little-endian fields

  function LeU16(b: seq<byte>, at: nat): u16
    requires at + 2 <= |b|
  {
    b[at] as int + 0x100 * b[at + 1] as int
  }

  function LeU32(b: seq<byte>, at: nat): u32
    requires at + 4 <= |b|
  {
    LeU16(b, at) as int + 0x1_0000 * LeU16(b, at + 2) as int
  }

  function U16Bytes(v: u16): (r: seq<byte>)
    ensures |r| == 2 && LeU16(r, 0) == v
  {
    [v % 0x100, v / 0x100]
  }

  function U32Bytes(v: u32): (r: seq<byte>)
    ensures |r| == 4 && LeU32(r, 0) == v
  {
    U16Bytes(v % 0x1_0000) + U16Bytes(v / 0x1_0000)
  }

  function Zeros(n: nat): (r: seq<byte>)
    ensures |r| == n && forall i :: 0 <= i < n ==> r[i] == 0
  {
    seq(n, _ => 0)
  }

  /** `buf[k:]`: empty when the buffer is shorter than `k`. */
  function Drop(b: seq<byte>, k: nat): seq<byte> {
    if |b| <= k then [] else b[k..]
  }

  /** `chr(c).encode()` (UTF-8) for a code point below 256. */
  function Utf8Char(c: byte): (r: seq<byte>)
    ensures |r| == (if c < 0x80 then 1 else 2)
  {
    if c < 0x80 then [c] else [0xC0 + c / 0x40, 0x80 + c % 0x40]
  }

  // ---------------------------------------------------------------- USB_NODE_CONNECTION_INFORMATION

  /** The fields `struct.unpack('=12sHHHBBB3s?6sL', buf[:35])` keeps. */
  datatype ConnInfo = ConnInfo(
    vid: u16, pid: u16, bcdDevice: u16,
    iManufacturer: byte, iProduct: byte, iSerialNumber: byte,
    isHub: bool, status: u32)

  /** Decodes the connection information; a reply shorter than 35 bytes is a struct error. */
  function DecodeConnInfo(buf: seq<byte>): (r: Result<ConnInfo>)
    ensures r.Err? <==> |buf| < 35
    ensures r.Err? ==> r.error == StructError
  {
    if |buf| < 35 then Err(StructError)
    else Ok(ConnInfo(LeU16(buf, 12), LeU16(buf, 14), LeU16(buf, 16), buf[18], buf[19], buf[20], buf[24] != 0, LeU32(buf, 31)))
  }

  /** A 35-byte reply carrying `c`, with `filler` in the bytes the decoder skips. */
  function EncodeConnInfo(c: ConnInfo, filler: byte): (buf: seq<byte>)
    ensures |buf| == 35
  {
    [filler, filler, filler, filler, filler, filler, filler, filler, filler, filler, filler, filler]
    + U16Bytes(c.vid) + U16Bytes(c.pid) + U16Bytes(c.bcdDevice)
    + [c.iManufacturer, c.iProduct, c.iSerialNumber, filler, filler, filler, if c.isHub then 1 else 0]
    + [filler, filler, filler, filler, filler, filler]
    + U32Bytes(c.status)
  }

  /** The device-descriptor fields sit at the offsets the layout gives them, whatever the skipped bytes hold. */
  lemma ConnInfoRoundTrip(c: ConnInfo, filler: byte)
    ensures DecodeConnInfo(EncodeConnInfo(c, filler)) == Ok(c)
  {
    var buf := EncodeConnInfo(c, filler);
    assert buf[12..14] == U16Bytes(c.vid);
    assert buf[14..16] == U16Bytes(c.pid);
    assert buf[16..18] == U16Bytes(c.bcdDevice);
    assert buf[31..35] == U32Bytes(c.status);
    assert LeU16(buf, 12) == LeU16(buf[12..14], 0);
    assert LeU16(buf, 14) == LeU16(buf[14..16], 0);
    assert LeU16(buf, 16) == LeU16(buf[16..18], 0);
    assert LeU32(buf, 31) == LeU32(buf[31..35], 0);
  }

  /** Only the first 35 bytes of a reply are read. */
  lemma ConnInfoIgnoresTail(buf: seq<byte>, tail: seq<byte>)
    requires |buf| == 35
    ensures DecodeConnInfo(buf + tail) == DecodeConnInfo(buf)
  {
    var b := buf + tail;
    assert LeU16(b, 12) == LeU16(buf, 12) && LeU16(b, 14) == LeU16(buf, 14) && LeU16(b, 16) == LeU16(buf, 16);
    assert LeU32(b, 31) == LeU32(buf, 31);
  }

  // ---------------------------------------------------------------- string descriptors

  const UsbStringDescriptorType: byte := 3
  const MaximumUsbStringLength: byte := 255

  /** `struct.pack('LBBHHH', conn, 0, 0, (3 << 8) | index, lang, 255)`: the 12-byte request. */
  function StrRequest(connIdx: u32, strIdx: byte, langId: u16): (req: seq<byte>)
    ensures |req| == 12
  {
    U32Bytes(connIdx) + [0, 0] + U16Bytes(UsbStringDescriptorType as int * 0x100 + strIdx as int) + U16Bytes(langId) + U16Bytes(MaximumUsbStringLength)
  }

  /** The fields of a 12-byte request: connection index, the two zero bytes, wValue, wIndex and wLength. */
  function ParseStrRequest(req: seq<byte>): (u32, byte, byte, u16, u16, u16)
    requires |req| == 12
  {
    (LeU32(req, 0), req[4], req[5], LeU16(req, 6), LeU16(req, 8), LeU16(req, 10))
  }

  /** The request names the connection, asks for a string descriptor (type 3) of that index, in that language, of at most 255 bytes. */
  lemma StrRequestRoundTrip(connIdx: u32, strIdx: byte, langId: u16)
    ensures ParseStrRequest(StrRequest(connIdx, strIdx, langId)) == (connIdx, 0, 0, 0x300 + strIdx, langId, 255)
    ensures StrRequest(connIdx, strIdx, langId)[6] == strIdx && StrRequest(connIdx, strIdx, langId)[7] == 3
  {
    var req := StrRequest(connIdx, strIdx, langId);
    assert req[0..4] == U32Bytes(connIdx);
    assert req[6..8] == U16Bytes(0x300 + strIdx);
    assert req[8..10] == U16Bytes(langId);
    assert req[10..12] == U16Bytes(255);
    assert LeU32(req, 0) == LeU32(req[0..4], 0);
    assert LeU16(req, 6) == LeU16(req[6..8], 0);
    assert LeU16(req, 8) == LeU16(req[8..10], 0);
    assert LeU16(req, 10) == LeU16(req[10..12], 0);
  }

  /** The operating system as the walker sees it. */
  datatype Host = Host(
    opens: string -> bool,
    ioctl: (string, int, seq<byte>, int) -> Option<seq<byte>>,
    decode: seq<byte> -> string,
    langId: u16)

  /** `get_str_desc(handle, conn_idx, str_idx)`: the UTF-16LE text after the 14-byte header, or "". */
  function StrDesc(h: Host, hub: string, connIdx: u32, strIdx: byte): (s: string)
    ensures
      var reply := h.ioctl(hub, IoctlGetDescriptorFromNodeConnection, StrRequest(connIdx, strIdx, h.langId), 12 + MaximumUsbStringLength);
      reply.None? ==> s == ""
    ensures
      var reply := h.ioctl(hub, IoctlGetDescriptorFromNodeConnection, StrRequest(connIdx, strIdx, h.langId), 12 + MaximumUsbStringLength);
      reply.Some? && |reply.value| <= 16 ==> s == ""
  {
    match h.ioctl(hub, IoctlGetDescriptorFromNodeConnection, StrRequest(connIdx, strIdx, h.langId), 12 + MaximumUsbStringLength)
    case None => ""
    case Some(buf) => if |buf| > 16 then h.decode(buf[14..]) else ""
  }

  /** A string-descriptor reply: the 12-byte request echoed back, bLength, bDescriptorType 3, then the UTF-16LE text. */
  function StrReply(echo: seq<byte>, bLength: byte, text: seq<byte>): (r: seq<byte>)
    requires |echo| == 12
    ensures |r| == 14 + |text|
  {
    echo + [bLength, UsbStringDescriptorType] + text
  }

  /**
   * The text of a string-descriptor reply is its result, unless it is one UTF-16 unit or
   * shorter: the length test `> 16` then answers "", so a one-character string reads as "".
   */
  lemma StrDescReply(h: Host, hub: string, connIdx: u32, strIdx: byte, echo: seq<byte>, bLength: byte, text: seq<byte>)
    requires |echo| == 12
    requires h.ioctl(hub, IoctlGetDescriptorFromNodeConnection, StrRequest(connIdx, strIdx, h.langId), 12 + MaximumUsbStringLength)
      == Some(StrReply(echo, bLength, text))
    ensures |text| > 2 ==> StrDesc(h, hub, connIdx, strIdx) == h.decode(text)
    ensures |text| <= 2 ==> StrDesc(h, hub, connIdx, strIdx) == ""
  {
    assert StrReply(echo, bLength, text)[14..] == text;
  }

  // ---------------------------------------------------------------- hub names

  /** `get_root_hub_name(handle)`: a 6-byte `LH` probe gives the length, the second reply the name after 4 bytes. */
  function RootHubName(h: Host, handle: string): (r: Result<string>)
    ensures r.Err? ==> r.error in {IoctlError, StructError}
  {
    match h.ioctl(handle, IoctlGetRootHubName, [], 6)
    case None => Err(IoctlError)
    case Some(probe) =>
      if |probe| != 6 then Err(StructError)
      else
        match h.ioctl(handle, IoctlGetRootHubName, [], LeU32(probe, 0))
        case None => Err(IoctlError)
        case Some(buf) => Ok(h.decode(Drop(buf, 4)))
  }

  /**
   * `USB_ROOT_HUB_NAME`: the probe is the 4-byte ActualLength and 2 bytes of name; the
   * second request asks for ActualLength bytes and the name follows the length field.
   */
  lemma RootHubNameReply(h: Host, handle: string, actLen: u32, head: u16, name: seq<byte>)
    requires h.ioctl(handle, IoctlGetRootHubName, [], 6) == Some(U32Bytes(actLen) + U16Bytes(head))
    ensures h.ioctl(handle, IoctlGetRootHubName, [], actLen) == Some(U32Bytes(actLen) + name) ==>
      RootHubName(h, handle) == Ok(h.decode(name))
    ensures h.ioctl(handle, IoctlGetRootHubName, [], actLen).None? ==> RootHubName(h, handle) == Err(IoctlError)
  {
    var probe := U32Bytes(actLen) + U16Bytes(head);
    assert probe[..4] == U32Bytes(actLen);
    assert LeU32(probe, 0) == LeU32(probe[..4], 0);
    assert Drop(U32Bytes(actLen) + name, 4) == name;
  }

  /** `(chr(index) + '\0' * k).encode()`: the connection index followed by zero padding. */
  function IndexRequest(index: byte, padding: nat): (r: seq<byte>)
    ensures |r| == |Utf8Char(index)| + padding
  {
    Utf8Char(index) + Zeros(padding)
  }

  /** `get_ext_hub_name(handle, index)`: a 10-byte `LLH` probe gives the length at offset 4, the name follows 8 bytes. */
  function ExtHubName(h: Host, handle: string, index: byte): (r: Result<string>)
    ensures r.Err? ==> r.error in {IoctlError, StructError}
  {
    var req := IndexRequest(index, 9);
    match h.ioctl(handle, IoctlGetNodeConnectionName, req, 10)
    case None => Err(IoctlError)
    case Some(probe) =>
      if |probe| != 10 then Err(StructError)
      else
        match h.ioctl(handle, IoctlGetNodeConnectionName, req, LeU32(probe, 4))
        case None => Err(IoctlError)
        case Some(buf) => Ok(h.decode(Drop(buf, 8)))
  }

  /**
   * `USB_NODE_CONNECTION_NAME`: the probe is ConnectionIndex, ActualLength and 2 bytes of
   * name; the second request asks for ActualLength bytes and the name follows both fields.
   */
  lemma ExtHubNameReply(h: Host, handle: string, index: byte, connIdx: u32, actLen: u32, head: u16, name: seq<byte>)
    requires h.ioctl(handle, IoctlGetNodeConnectionName, IndexRequest(index, 9), 10)
      == Some(U32Bytes(connIdx) + U32Bytes(actLen) + U16Bytes(head))
    ensures h.ioctl(handle, IoctlGetNodeConnectionName, IndexRequest(index, 9), actLen) == Some(U32Bytes(connIdx) + U32Bytes(actLen) + name) ==>
      ExtHubName(h, handle, index) == Ok(h.decode(name))
    ensures h.ioctl(handle, IoctlGetNodeConnectionName, IndexRequest(index, 9), actLen).None? ==>
      ExtHubName(h, handle, index) == Err(IoctlError)
  {
    var probe := U32Bytes(connIdx) + U32Bytes(actLen) + U16Bytes(head);
    assert probe[4..8] == U32Bytes(actLen);
    assert LeU32(probe, 4) == LeU32(probe[4..8], 0);
    assert Drop(U32Bytes(connIdx) + U32Bytes(actLen) + name, 8) == name;
  }

  // ---------------------------------------------------------------- device records

  /**
   * A found device. A string field is None when its descriptor index is 0: the source
   * then keeps the integer 0 and never asks for the string.
   */
  datatype DeviceInfo = DeviceInfo(vid: u16, pid: u16, manufacturer: Option<string>, product: Option<string>, serialNumber: string, location: string)

  /** `DeviceInfo.__init__`: serial 0 becomes "", a fetched serial is upper-cased; the location is dot-joined. */
  function MakeDeviceInfo(vid: u16, pid: u16, manufacturer: Option<string>, product: Option<string>, serial: Option<string>, location: seq<nat>): (d: DeviceInfo)
    ensures serial.None? ==> d.serialNumber == ""
    ensures serial.Some? ==> |d.serialNumber| == |serial.value| && forall i :: 0 <= i < |d.serialNumber| ==> !IsLowerAscii(d.serialNumber[i])
    ensures serial.Some? ==> forall i :: 0 <= i < |serial.value| ==> d.serialNumber[i] == UpperChar(serial.value[i])
  {
    DeviceInfo(vid, pid, manufacturer, product, if serial.None? then "" else Upper(serial.value), DotJoin(location))
  }

  /** The location string splits back into the controller index and the port indices. */
  lemma LocationSplits(vid: u16, pid: u16, manufacturer: Option<string>, product: Option<string>, serial: Option<string>, location: seq<nat>)
    requires location != []
    ensures Split(MakeDeviceInfo(vid, pid, manufacturer, product, serial, location).location, '.') == Decimals(location)
  {
    SplitDotJoin(location);
  }

  /** The string of a non-zero descriptor index; a zero index is not fetched. */
  function Fetch(h: Host, hub: string, connIdx: u32, strIdx: byte): (r: Option<string>)
    ensures r.None? <==> strIdx == 0
  {
    if strIdx == 0 then None else Some(StrDesc(h, hub, connIdx, strIdx))
  }

  function Describe(h: Host, hub: string, idx: byte, c: ConnInfo, location: seq<nat>): DeviceInfo {
    MakeDeviceInfo(c.vid, c.pid, Fetch(h, hub, idx, c.iManufacturer), Fetch(h, hub, idx, c.iProduct), Fetch(h, hub, idx, c.iSerialNumber), location + [idx])
  }

  /** A connected non-hub port with at least one string descriptor: the ports that make a record. */
  predicate Reportable(c: ConnInfo) {
    !c.isHub && c.status == 1 && (c.iManufacturer != 0 || c.iProduct != 0 || c.iSerialNumber != 0)
  }

  // ---------------------------------------------------------------- the walk

  /** The port loop's state: the devices so far and the last reply (reused when a request fails). */
  datatype WalkState = WalkState(devices: seq<DeviceInfo>, buf: Option<seq<byte>>)

  const ConnInfoReplySize: int := 34 + 11 * 30
  const NodeInfoReplySize: int := 76

  /**
   * One port of a hub. `fuel` is the remaining recursion depth: a hub below the last level
   * raises RecursionLimit as Python's own recursion limit would.
   */
  function PortStep(h: Host, hub: string, idx: byte, location: seq<nat>, fuel: nat, st: WalkState): Result<WalkState>
    decreases fuel, 0
  {
    var reply := h.ioctl(hub, IoctlGetNodeConnectionInformation, IndexRequest(idx, 34), ConnInfoReplySize);
    var buf := if reply.Some? then reply else st.buf;
    if buf.None? then Err(UnboundLocalError("buf"))
    else
      match DecodeConnInfo(buf.value)
      case Err(e) => Err(e)
      case Ok(c) =>
        if c.isHub then
          if fuel == 0 then Err(RecursionLimit)
          else
            match ExtHubName(h, hub, idx)
            case Err(e) => Err(e)
            case Ok(name) =>
              match ExamHubOf(h, name, location + [idx], fuel - 1)
              case Err(e) => Err(e)
              case Ok(found) => Ok(WalkState(st.devices + found, buf))
        else if Reportable(c) then Ok(WalkState(st.devices + [Describe(h, hub, idx, c, location)], buf))
        else Ok(WalkState(st.devices, buf))
  }

  /** `get_hub_ports` over ports 1..n, in increasing order. */
  function PortsOf(h: Host, hub: string, n: byte, location: seq<nat>, fuel: nat): Result<WalkState>
    decreases fuel, 1, n
  {
    if n == 0 then Ok(WalkState([], None))
    else
      match PortsOf(h, hub, n - 1, location, fuel)
      case Err(e) => Err(e)
      case Ok(st) => PortStep(h, hub, n, location, fuel, st)
  }

  /** The node-information request of an opened hub: its port count is byte 6 of the reply. */
  function NodePortsOf(h: Host, handle: string, location: seq<nat>, fuel: nat): Result<seq<DeviceInfo>>
    decreases fuel, 2
  {
    match h.ioctl(handle, IoctlGetNodeInformation, [], NodeInfoReplySize)
    case None => Err(IoctlError)
    case Some(buf) =>
      if |buf| <= 6 then Err(IndexError)
      else
        match PortsOf(h, handle, buf[6], location, fuel)
        case Err(e) => Err(e)
        case Ok(st) => Ok(st.devices)
  }

  /** `exam_hub(name, level, location)`: a hub that does not open contributes nothing. */
  function ExamHubOf(h: Host, name: string, location: seq<nat>, fuel: nat): Result<seq<DeviceInfo>>
    decreases fuel, 3
  {
    var path := "\\\\.\\" + name;
    if !h.opens(path) then Ok([]) else NodePortsOf(h, path, location, fuel)
  }

  /** One host controller `\\.\HCD<i>`: skipped when it or its root hub does not open. */
  function ControllerStep(h: Host, i: nat, fuel: nat, devices: seq<DeviceInfo>): Result<seq<DeviceInfo>> {
    var name := "\\\\.\\HCD" + DecimalOf(i);
    if !h.opens(name) then Ok(devices)
    else
      match RootHubName(h, name)
      case Err(e) => Err(e)
      case Ok(root) =>
        var devName := "\\\\.\\" + root;
        if !h.opens(devName) then Ok(devices)
        else
          match NodePortsOf(h, devName, [i], fuel)
          case Err(e) => Err(e)
          case Ok(found) => Ok(devices + found)
  }

  /** Controllers 0..k-1 in order. */
  function ControllersOf(h: Host, k: nat, fuel: nat): Result<seq<DeviceInfo>> {
    if k == 0 then Ok([])
    else
      match ControllersOf(h, k - 1, fuel)
      case Err(e) => Err(e)
      case Ok(devices) => ControllerStep(h, k - 1, fuel, devices)
  }

  const HostControllers: nat := 32

  /** A serial the final filter drops. */
  predicate NoSerial(d: DeviceInfo) {
    d.serialNumber in ["", "0", "''"]
  }

  /** `get_all_devices()` */
  function AllDevicesOf(h: Host, fuel: nat): Result<seq<DeviceInfo>> {
    match ControllersOf(h, HostControllers, fuel)
    case Err(e) => Err(e)
    case Ok(devices) => Ok(FilterOut(devices, NoSerial))
  }

  // ---------------------------------------------------------------- the methods

  /** The port loop of `get_hub_ports`. */
  method GetHubPorts(h: Host, handle: string, numPorts: byte, location: seq<nat>, fuel: nat) returns (r: Result<seq<DeviceInfo>>)
    ensures PortsOf(h, handle, numPorts, location, fuel).Err? ==> r == Err(PortsOf(h, handle, numPorts, location, fuel).error)
    ensures PortsOf(h, handle, numPorts, location, fuel).Ok? ==> r == Ok(PortsOf(h, handle, numPorts, location, fuel).value.devices)
    decreases fuel, 1
  {
    var devices: seq<DeviceInfo> := [];
    var buf: Option<seq<byte>> := None;
    for idx := 1 to numPorts + 1
      invariant PortsOf(h, handle, idx - 1, location, fuel) == Ok(WalkState(devices, buf))
    {
      PortsErrSticks(h, handle, idx, numPorts, location, fuel);
      ghost var st := WalkState(devices, buf);
      assert PortsOf(h, handle, idx, location, fuel) == PortStep(h, handle, idx, location, fuel, st);
      var reply := h.ioctl(handle, IoctlGetNodeConnectionInformation, IndexRequest(idx, 34), ConnInfoReplySize);
      if reply.Some? {
        buf := reply;
      }
      if buf.None? {
        return Err(UnboundLocalError("buf"));
      }
      var info := DecodeConnInfo(buf.value);
      if info.Err? {
        return Err(info.error);
      }
      var c := info.value;
      if c.isHub {
        if fuel == 0 {
          return Err(RecursionLimit);
        }
        var name := ExtHubName(h, handle, idx);
        if name.Err? {
          return Err(name.error);
        }
        var examed := ExamHub(h, name.value, location + [idx], fuel - 1);
        if examed.Err? {
          return Err(examed.error);
        }
        devices := devices + examed.value;
      } else if c.status == 1 {
        if c.iManufacturer != 0 || c.iProduct != 0 || c.iSerialNumber != 0 {
          var manu: Option<string> := None;
          var prod: Option<string> := None;
          var seri: Option<string> := None;
          if c.iManufacturer != 0 {
            manu := Some(StrDesc(h, handle, idx, c.iManufacturer));
          }
          if c.iProduct != 0 {
            prod := Some(StrDesc(h, handle, idx, c.iProduct));
          }
          if c.iSerialNumber != 0 {
            seri := Some(StrDesc(h, handle, idx, c.iSerialNumber));
          }
          devices := devices + [MakeDeviceInfo(c.vid, c.pid, manu, prod, seri, location + [idx])];
        }
      }
    }
    r := Ok(devices);
  }

  /** `exam_hub(name, level, location)` */
  method ExamHub(h: Host, name: string, location: seq<nat>, fuel: nat) returns (r: Result<seq<DeviceInfo>>)
    ensures r == ExamHubOf(h, name, location, fuel)
    decreases fuel, 3
  {
    var path := "\\\\.\\" + name;
    if !h.opens(path) {
      return Ok([]);
    }
    var buf := h.ioctl(path, IoctlGetNodeInformation, [], NodeInfoReplySize);
    if buf.None? {
      return Err(IoctlError);
    }
    if |buf.value| <= 6 {
      return Err(IndexError);
    }
    r := GetHubPorts(h, path, buf.value[6], location, fuel);
  }

  /** `get_all_devices()`: the controller loop, then the serial filter. */
  method GetAllDevices(h: Host, fuel: nat) returns (r: Result<seq<DeviceInfo>>)
    ensures r == AllDevicesOf(h, fuel)
  {
    var devices: seq<DeviceInfo> := [];
    for i := 0 to HostControllers
      invariant ControllersOf(h, i, fuel) == Ok(devices)
    {
      ControllersErrSticks(h, i + 1, HostControllers, fuel);
      var name := "\\\\.\\HCD" + DecimalOf(i);
      if !h.opens(name) {
        continue;
      }
      var root := RootHubName(h, name);
      if root.Err? {
        return Err(root.error);
      }
      var devName := "\\\\.\\" + root.value;
      if !h.opens(devName) {
        continue;
      }
      var buf := h.ioctl(devName, IoctlGetNodeInformation, [], NodeInfoReplySize);
      if buf.None? {
        return Err(IoctlError);
      }
      if |buf.value| <= 6 {
        return Err(IndexError);
      }
      var found := GetHubPorts(h, devName, buf.value[6], [i], fuel);
      if found.Err? {
        return Err(found.error);
      }
      devices := devices + found.value;
    }
    r := Ok(FilterOut(devices, NoSerial));
  }

  // ---------------------------------------------------------------- properties

  /** A failure at some port ends the whole port loop with that failure. */
  lemma {:induction false} PortsErrSticks(h: Host, hub: string, k: nat, n: byte, location: seq<nat>, fuel: nat)
    requires 1 <= k <= n
    ensures PortsOf(h, hub, k, location, fuel).Err? ==> PortsOf(h, hub, n, location, fuel) == Err(PortsOf(h, hub, k, location, fuel).error)
    decreases n
  {
    if k < n {
      PortsErrSticks(h, hub, k, n - 1, location, fuel);
    }
  }

  /** A failure at some controller ends the controller loop with that failure. */
  lemma {:induction false} ControllersErrSticks(h: Host, k: nat, n: nat, fuel: nat)
    requires k <= n
    ensures ControllersOf(h, k, fuel).Err? ==> ControllersOf(h, n, fuel) == Err(ControllersOf(h, k, fuel).error)
    decreases n
  {
    if k < n {
      ControllersErrSticks(h, k, n - 1, fuel);
    }
  }

  /**
   * A non-hub port adds exactly one record when it is connected (status 1) and has a
   * string descriptor, and nothing otherwise; its record's location extends the hub's.
   */
  lemma NonHubPort(h: Host, hub: string, idx: byte, location: seq<nat>, fuel: nat, st: WalkState, c: ConnInfo)
    requires
      var reply := h.ioctl(hub, IoctlGetNodeConnectionInformation, IndexRequest(idx, 34), ConnInfoReplySize);
      reply.Some? && DecodeConnInfo(reply.value) == Ok(c)
    requires !c.isHub
    ensures PortStep(h, hub, idx, location, fuel, st).Ok?
    ensures Reportable(c) ==>
      PortStep(h, hub, idx, location, fuel, st).value.devices == st.devices + [Describe(h, hub, idx, c, location)]
    ensures !Reportable(c) ==> PortStep(h, hub, idx, location, fuel, st).value.devices == st.devices
    ensures Describe(h, hub, idx, c, location).location == DotJoin(location + [idx])
  {
  }

  /** `d`'s location is `location` followed by a dot and further port indices. */
  predicate Below(d: DeviceInfo, location: seq<nat>) {
    StartsWith(d.location, DotJoin(location) + ".")
  }

  /** Appending an index to a non-empty location appends a dot and its decimal digits. */
  lemma {:induction false} DotJoinSnoc(location: seq<nat>, idx: nat)
    requires location != []
    ensures DotJoin(location + [idx]) == DotJoin(location) + "." + DecimalOf(idx)
    decreases |location|
  {
    if |location| > 1 {
      DotJoinSnoc(location[1..], idx);
      assert (location + [idx])[1..] == location[1..] + [idx];
    }
  }

  lemma BelowDeeper(d: DeviceInfo, location: seq<nat>, idx: nat)
    requires location != []
    requires Below(d, location + [idx])
    ensures Below(d, location)
  {
    DotJoinSnoc(location, idx);
    var p := DotJoin(location) + ".";
    var q := DotJoin(location + [idx]) + ".";
    assert q == p + (DecimalOf(idx) + ".");
    assert d.location[..|q|][..|p|] == d.location[..|p|];
  }

  lemma AllBelowDeeper(ds: seq<DeviceInfo>, location: seq<nat>, idx: nat)
    requires location != []
    requires forall d :: d in ds ==> Below(d, location + [idx])
    ensures forall d :: d in ds ==> Below(d, location)
  {
    forall d | d in ds
      ensures Below(d, location)
    {
      BelowDeeper(d, location, idx);
    }
  }

  /** The records of a hub found at port `idx` lie below the hub that holds the port. */
  lemma {:induction false} HubPortBelow(h: Host, name: string, idx: byte, location: seq<nat>, fuel: nat)
    requires location != []
    requires fuel > 0
    ensures ExamHubOf(h, name, location + [idx], fuel - 1).Ok? ==>
      forall d :: d in ExamHubOf(h, name, location + [idx], fuel - 1).value ==> Below(d, location)
    decreases fuel, 0
  {
    var inner: seq<nat> := location + [idx];
    ExamHubBelow(h, name, inner, fuel - 1);
    var found := ExamHubOf(h, name, inner, fuel - 1);
    if found.Ok? {
      AllBelowDeeper(found.value, location, idx);
    }
  }

  lemma {:induction false} PortStepBelow(h: Host, hub: string, idx: byte, location: seq<nat>, fuel: nat, st: WalkState)
    requires location != []
    requires forall d :: d in st.devices ==> Below(d, location)
    ensures PortStep(h, hub, idx, location, fuel, st).Ok? ==>
      forall d :: d in PortStep(h, hub, idx, location, fuel, st).value.devices ==> Below(d, location)
    decreases fuel, 1
  {
    var reply := h.ioctl(hub, IoctlGetNodeConnectionInformation, IndexRequest(idx, 34), ConnInfoReplySize);
    var buf := if reply.Some? then reply else st.buf;
    if buf.Some? && DecodeConnInfo(buf.value).Ok? {
      var c := DecodeConnInfo(buf.value).value;
      if c.isHub && fuel > 0 && ExtHubName(h, hub, idx).Ok? {
        HubPortBelow(h, ExtHubName(h, hub, idx).value, idx, location, fuel);
      } else if !c.isHub && Reportable(c) {
        assert Below(Describe(h, hub, idx, c, location), location) by {
          DotJoinSnoc(location, idx);
          assert Describe(h, hub, idx, c, location).location == DotJoin(location) + "." + DecimalOf(idx);
        }
      }
    }
  }

  lemma {:induction false} PortsBelow(h: Host, hub: string, n: byte, location: seq<nat>, fuel: nat)
    requires location != []
    ensures PortsOf(h, hub, n, location, fuel).Ok? ==>
      forall d :: d in PortsOf(h, hub, n, location, fuel).value.devices ==> Below(d, location)
    decreases fuel, 2, n
  {
    if n > 0 {
      PortsBelow(h, hub, n - 1, location, fuel);
      if PortsOf(h, hub, n - 1, location, fuel).Ok? {
        PortStepBelow(h, hub, n, location, fuel, PortsOf(h, hub, n - 1, location, fuel).value);
      }
    }
  }

  lemma {:induction false} NodePortsBelow(h: Host, handle: string, location: seq<nat>, fuel: nat)
    requires location != []
    ensures NodePortsOf(h, handle, location, fuel).Ok? ==>
      forall d :: d in NodePortsOf(h, handle, location, fuel).value ==> Below(d, location)
    decreases fuel, 3
  {
    var buf := h.ioctl(handle, IoctlGetNodeInformation, [], NodeInfoReplySize);
    if buf.Some? && |buf.value| > 6 {
      PortsBelow(h, handle, buf.value[6], location, fuel);
    }
  }

  lemma {:induction false} ExamHubBelow(h: Host, name: string, location: seq<nat>, fuel: nat)
    requires location != []
    ensures ExamHubOf(h, name, location, fuel).Ok? ==>
      forall d :: d in ExamHubOf(h, name, location, fuel).value ==> Below(d, location)
    decreases fuel, 4
  {
    NodePortsBelow(h, "\\\\.\\" + name, location, fuel);
  }

  /** Every record found under controllers 0..k-1 is located below one of them. */
  lemma {:induction false} ControllersBelow(h: Host, k: nat, fuel: nat)
    ensures ControllersOf(h, k, fuel).Ok? ==>
      forall d :: d in ControllersOf(h, k, fuel).value ==> exists i :: 0 <= i < k && Below(d, [i])
    decreases k
  {
    if k > 0 {
      ControllersBelow(h, k - 1, fuel);
      var i := k - 1;
      var root := RootHubName(h, "\\\\.\\HCD" + DecimalOf(i));
      if root.Ok? {
        NodePortsBelow(h, "\\\\.\\" + root.value, [i], fuel);
      }
    }
  }

  /**
   * `get_all_devices` keeps the found records, in order, that have a real serial number,
   * and each is located below one of the 32 host controllers.
   */
  lemma AllDevices(h: Host, fuel: nat)
    ensures AllDevicesOf(h, fuel).Err? <==> ControllersOf(h, HostControllers, fuel).Err?
    ensures AllDevicesOf(h, fuel).Ok? ==>
      && SubseqOf(AllDevicesOf(h, fuel).value, ControllersOf(h, HostControllers, fuel).value)
      && (forall d :: d in AllDevicesOf(h, fuel).value ==>
           d.serialNumber !in ["", "0", "''"] && exists i :: 0 <= i < 32 && Below(d, [i]))
      && (forall d :: d in ControllersOf(h, HostControllers, fuel).value && d.serialNumber !in ["", "0", "''"] ==>
           d in AllDevicesOf(h, fuel).value)
  {
    ControllersBelow(h, HostControllers, fuel);
    if ControllersOf(h, HostControllers, fuel).Ok? {
      var devices := ControllersOf(h, HostControllers, fuel).value;
      FilterIsSubseq(devices, NoSerial);
      FilterOutMembers(devices, NoSerial);
    }
  }
}
