/** The NVIDIA Management Library as the telemetry code sees it from outside:
    a set of exported symbol names, and the answers its entry points give.
    Nothing here is computed by nvml.c; these are the inputs its logic
    decides on. */
module NvmlLibrary {
  import opened Wrappers
  import opened CTypes

  /** The entry points nvml.c keeps a function pointer for. */
  datatype EntryPoint =
    | ErrorString
    | Init
    | DeviceGetCount
    | DeviceGetHandleByIndex
    | DeviceGetName
    | DeviceGetPciInfo
    | DeviceGetTemperature
    | DeviceGetFanSpeed
    | DeviceGetClockInfo
    | DeviceGetDefaultApplicationsClock
    | DeviceGetPowerManagementLimit
    | DeviceGetPowerUsage
    | Shutdown

  /** The two API generations: the `_v2` symbols, and the unsuffixed legacy ones. */
  datatype ApiVersion = Legacy | V2

  /** The entry points whose symbol depends on the API generation. Their data
      structures differ in layout between generations, so all four must come
      from the same one. */
  predicate Versioned(ep: EntryPoint) {
    ep.Init? || ep.DeviceGetCount? || ep.DeviceGetHandleByIndex? || ep.DeviceGetPciInfo?
  }

  /** The name ends in the `_v2` generation suffix. */
  predicate HasV2Suffix(name: string) {
    |name| >= 3 && name[|name| - 3..] == "_v2"
  }

  /** The symbol name under which an entry point is exported in a generation;
      entry points that are not versioned have one name in both. */
  function SymbolName(ep: EntryPoint, v: ApiVersion): string {
    match ep
    case ErrorString => "nvmlErrorString"
    case Init => if v == V2 then "nvmlInit_v2" else "nvmlInit"
    case DeviceGetCount => if v == V2 then "nvmlDeviceGetCount_v2" else "nvmlDeviceGetCount"
    case DeviceGetHandleByIndex =>
      if v == V2 then "nvmlDeviceGetHandleByIndex_v2" else "nvmlDeviceGetHandleByIndex"
    case DeviceGetName => "nvmlDeviceGetName"
    case DeviceGetPciInfo => if v == V2 then "nvmlDeviceGetPciInfo_v2" else "nvmlDeviceGetPciInfo"
    case DeviceGetTemperature => "nvmlDeviceGetTemperature"
    case DeviceGetFanSpeed => "nvmlDeviceGetFanSpeed"
    case DeviceGetClockInfo => "nvmlDeviceGetClockInfo"
    case DeviceGetDefaultApplicationsClock => "nvmlDeviceGetDefaultApplicationsClock"
    case DeviceGetPowerManagementLimit => "nvmlDeviceGetPowerManagementLimit"
    case DeviceGetPowerUsage => "nvmlDeviceGetPowerUsage"
    case Shutdown => "nvmlShutdown"
  }

  /** The table's shape: a versioned entry point's `_v2` symbol is its legacy
      name with the suffix appended, an unversioned one has the same name in
      both generations, and only `_v2` symbols end in the suffix. */
  lemma SymbolNameGenerations(ep: EntryPoint, v: ApiVersion)
    ensures Versioned(ep) ==> SymbolName(ep, V2) == SymbolName(ep, Legacy) + "_v2"
    ensures !Versioned(ep) ==> SymbolName(ep, V2) == SymbolName(ep, Legacy)
    ensures HasV2Suffix(SymbolName(ep, v)) <==> Versioned(ep) && v == V2
  {
  }

  /** Symbol lookup in an opened library: the name resolves exactly when the
      library exports it. */
  function Dlsym(exports: set<string>, name: string): (r: Option<string>)
    ensures r.Some? <==> name in exports
    ensures r.Some? ==> r.value == name
  {
    if name in exports then Some(name) else None
  }

  /** The part of `nvmlPciInfo_t` the code reads. */
  datatype PciInfo = PciInfo(bus: uint32, pciDeviceId: uint32, pciSubSystemId: uint32, busId: string)

  /** What `nvmlDeviceGetHandleByIndex` answers: an error, success with a
      NULL handle, or success with a usable handle. */
  datatype HandleReply = HandleError | NullHandle | ValidHandle

  /** The answers the library gives for one device index: the handle query,
      and each query made with the handle that index yields (`None` is a
      non-success return code). */
  datatype Device = Device(
    handle: HandleReply,
    name: Option<string>,
    pci: Option<PciInfo>,
    temperature: Option<uint32>,
    fanSpeed: Option<uint32>,
    smClock: Option<uint32>,
    memClock: Option<uint32>,
    defaultGraphicsClock: Option<uint32>,
    defaultMemClock: Option<uint32>,
    powerUsage: Option<uint32>,
    powerLimit: Option<uint32>)

  /** An index the library knows nothing about: every query on it fails. */
  const ABSENT_DEVICE: Device :=
    Device(HandleError, None, None, None, None, None, None, None, None, None, None)

  /** The library's answers at one moment: the device count query, and the
      answers for each index (indices past the end answer as absent). */
  datatype Library = Library(count: Option<uint32>, devices: seq<Device>) {

    function At(i: nat): (d: Device)
      ensures i >= |devices| ==> d.handle.HandleError?
    {
      if i < |devices| then devices[i] else ABSENT_DEVICE
    }
  }
}
