/** The NVIDIA backend of the GPU telemetry layer: binding the management
    library's entry points, resolving a PCI bus number to a device index, the
    per-device queries with their sentinel values, the device listing and
    shutdown. The library is given as data (see NvmlLibrary); what is modelled
    is the decision logic between its answers and the caller. */
module Nvml {
  import opened Wrappers
  import opened CTypes
  import opened NvmlLibrary
  import opened NvmlUnits

  /** The messages the backend sends to the application log, without their
      formatting and error strings. */
  datatype LogEvent =
    | LibraryNotLoaded                  // "Unable to load the NVIDIA Management Library"
    | InitUnresolved                    // "NVML: Unable to initialise"
    | InitFailed                        // "NVML: Init failed"
    | DeviceQueryFailed                 // the resolver could not count the devices
    | DeviceCountFailed                 // the listing could not count the devices
    | DeviceCount(n: uint32)            // "Number of NVML devices"
    | HandleQueryFailed(dev: uint32)
    | NameQueryFailed(dev: uint32)
    | PciQueryFailed(dev: uint32)
    | DeviceLine(dev: uint32, name: string, busId: string)
    | ShutdownFailed                    // "NVML: Unable to shut down"

  // ---------------------------------------------------------------------
  // Symbol binding

  /** The generation init settles on: the `_v2` init symbol if the library
      exports it, else the legacy one, else none. */
  function ChosenVersion(exports: set<string>): (r: Option<ApiVersion>)
    ensures r.Some? ==> SymbolName(Init, r.value) in exports
    ensures r != Some(V2) ==> SymbolName(Init, V2) !in exports
    ensures r.None? ==> forall v :: SymbolName(Init, v) !in exports
  {
    if SymbolName(Init, V2) in exports then Some(V2)
    else if SymbolName(Init, Legacy) in exports then Some(Legacy)
    else None
  }

  /** What a successful init leaves in the pointer for `ep`: its symbol
      under the chosen generation, or NULL if that symbol is not exported. */
  function BoundAfterInit(exports: set<string>, v: ApiVersion, ep: EntryPoint): Option<string> {
    Dlsym(exports, SymbolName(ep, v))
  }

  /** The generation is the newest one whose init symbol exists: legacy is
      chosen only when `nvmlInit_v2` is missing, and nothing is chosen only
      when both init symbols are missing. */
  lemma ChosenVersionPrefersV2(exports: set<string>)
    ensures ChosenVersion(exports) == Some(V2) <==> "nvmlInit_v2" in exports
    ensures ChosenVersion(exports) == Some(Legacy) <==> "nvmlInit_v2" !in exports && "nvmlInit" in exports
    ensures ChosenVersion(exports).None? <==> "nvmlInit_v2" !in exports && "nvmlInit" !in exports
  {
  }

  /** Version consistency: after a successful init, every bound versioned
      entry point carries the `_v2` suffix exactly when init itself does. */
  lemma VersionConsistency(exports: set<string>, ep: EntryPoint)
    requires ChosenVersion(exports).Some? && Versioned(ep)
    requires BoundAfterInit(exports, ChosenVersion(exports).value, ep).Some?
    ensures var name := BoundAfterInit(exports, ChosenVersion(exports).value, ep).value;
            var init := BoundAfterInit(exports, ChosenVersion(exports).value, Init).value;
            BoundAfterInit(exports, ChosenVersion(exports).value, Init).Some? &&
            (HasV2Suffix(name) <==> HasV2Suffix(init))
  {
  }

  // ---------------------------------------------------------------------
  // The bus-number resolver's specification

  /** Index `i` answers a handle and PCI record, and the record's bus is `busid`. */
  predicate Matches(lib: Library, i: nat, busid: uint32) {
    var d := lib.At(i);
    !d.handle.HandleError? && d.pci.Some? && d.pci.value.bus == busid
  }

  /** The first matching index in `[i, n)`, if any. */
  function FirstMatchFrom(lib: Library, busid: uint32, i: nat, n: nat): (r: Option<nat>)
    decreases n - i
    ensures r.Some? ==> i <= r.value < n && Matches(lib, r.value, busid)
    ensures r.Some? ==> forall j :: i <= j < r.value ==> !Matches(lib, j, busid)
    ensures r.None? ==> forall j :: i <= j < n ==> !Matches(lib, j, busid)
  {
    if i >= n then None
    else if Matches(lib, i, busid) then Some(i)
    else FirstMatchFrom(lib, busid, i + 1, n)
  }

  /** The index the resolver answers for `busid`: the smallest counted index
      that matches, or `UINT_MAX` when the count fails or nothing matches. */
  function ResolveIndex(lib: Library, busid: uint32): (dev: uint32)
    ensures dev != UINT_MAX ==>
      lib.count.Some? && dev < lib.count.value && Matches(lib, dev, busid) &&
      forall j :: 0 <= j < dev ==> !Matches(lib, j, busid)
    ensures dev == UINT_MAX ==>
      lib.count.None? || forall j :: 0 <= j < lib.count.value ==> !Matches(lib, j, busid)
  {
    match lib.count
    case None => UINT_MAX
    case Some(n) =>
      match FirstMatchFrom(lib, busid, 0, n)
      case Some(i) => i
      case None => UINT_MAX
  }

  /** What the resolver logs: one message when the count query fails. */
  function ResolveEvents(lib: Library): seq<LogEvent> {
    if lib.count.None? then [DeviceQueryFailed] else []
  }

  /** The device a query talks to: the resolver's index is re-queried for a
      handle (in `later`, the library's answers after the resolver ran), and
      the answers for that handle are used when it is non-NULL. */
  function QueriedDevice(busid: uint32, lib: Library, later: Library): (r: Option<Device>)
    ensures r.Some? ==> ResolveIndex(lib, busid) != UINT_MAX
    ensures ResolveIndex(lib, busid) != UINT_MAX && later.At(ResolveIndex(lib, busid)).handle.ValidHandle? ==> r.Some?
    ensures r.Some? ==> r.value == later.At(ResolveIndex(lib, busid)) && r.value.handle.ValidHandle?
  {
    var dev := ResolveIndex(lib, busid);
    if dev == UINT_MAX then None
    else if later.At(dev).handle.ValidHandle? then Some(later.At(dev))
    else None
  }

  /** A reading, or `sentinel` when its call failed. */
  function OrSentinel(reading: Option<uint32>, sentinel: int): int {
    if reading.Some? then reading.value else sentinel
  }

  /** Resolving twice against the same answers gives the same index. */
  lemma ResolveIsDeterministic(lib: Library, busid: uint32, dev1: uint32, dev2: uint32)
    requires dev1 != UINT_MAX && lib.count.Some? && dev1 < lib.count.value && Matches(lib, dev1, busid)
    requires forall j :: 0 <= j < dev1 ==> !Matches(lib, j, busid)
    requires dev2 != UINT_MAX && lib.count.Some? && dev2 < lib.count.value && Matches(lib, dev2, busid)
    requires forall j :: 0 <= j < dev2 ==> !Matches(lib, j, busid)
    ensures dev1 == dev2 == ResolveIndex(lib, busid)
  {
  }

  /** With the device set unchanged between resolving and querying, the
      identity query's bus re-check always passes. */
  lemma BusRecheckPassesWhenStable(busid: uint32, lib: Library)
    requires QueriedDevice(busid, lib, lib).Some?
    ensures QueriedDevice(busid, lib, lib).value.pci.Some?
    ensures QueriedDevice(busid, lib, lib).value.pci.value.bus == busid
  {
    assert Matches(lib, ResolveIndex(lib, busid), busid);
  }

  // ---------------------------------------------------------------------
  // The device listing's specification

  /** Index `i` answers its handle, name and PCI queries. */
  predicate Listable(lib: Library, i: nat) {
    var d := lib.At(i);
    !d.handle.HandleError? && d.name.Some? && d.pci.Some?
  }

  /** The first index in `[i, n)` that cannot be listed, or `n`. */
  function FirstUnlistable(lib: Library, i: nat, n: nat): (k: nat)
    requires i <= n
    decreases n - i
    ensures i <= k <= n
    ensures forall j :: i <= j < k ==> Listable(lib, j)
    ensures k < n ==> !Listable(lib, k)
  {
    if i == n then n
    else if !Listable(lib, i) then i
    else FirstUnlistable(lib, i + 1, n)
  }

  /** The line listing index `i`. */
  function ListingLine(lib: Library, i: uint32): LogEvent {
    var d := lib.At(i);
    DeviceLine(i, d.name.GetOr(""), if d.pci.Some? then d.pci.value.busId else "")
  }

  /** The lines for indices `0..k-1`, in order. */
  function ListingLines(lib: Library, k: nat): (s: seq<LogEvent>)
    requires k <= UINT_MAX
    ensures |s| == k
    ensures forall i :: 0 <= i < k ==> s[i] == ListingLine(lib, i)
  {
    seq(k, i requires 0 <= i < k => ListingLine(lib, i))
  }

  /** The message for the first query that fails at index `i`. */
  function FailureEvent(lib: Library, i: uint32): (e: LogEvent)
    requires !Listable(lib, i)
    ensures e.HandleQueryFailed? || e.NameQueryFailed? || e.PciQueryFailed?
    ensures e.dev == i
    ensures e.HandleQueryFailed? <==> lib.At(i).handle.HandleError?
    ensures e.NameQueryFailed? <==> !lib.At(i).handle.HandleError? && lib.At(i).name.None?
    ensures e.PciQueryFailed? <==> !lib.At(i).handle.HandleError? && lib.At(i).name.Some? && lib.At(i).pci.None?
  {
    var d := lib.At(i);
    if d.handle.HandleError? then HandleQueryFailed(i)
    else if d.name.None? then NameQueryFailed(i)
    else PciQueryFailed(i)
  }

  /** Everything the listing logs. */
  function Listing(lib: Library): (s: seq<LogEvent>)
    ensures lib.count.None? <==> s == [DeviceCountFailed]
    ensures lib.count.Some? ==> 1 <= |s| <= lib.count.value + 1 && s[0] == DeviceCount(lib.count.value)
    ensures forall p :: 1 <= p < |s| && s[p].DeviceLine? ==> s[p].dev == p - 1 && Listable(lib, p - 1)
    ensures forall p :: 1 <= p < |s| - 1 ==> s[p].DeviceLine?
  {
    match lib.count
    case None => [DeviceCountFailed]
    case Some(n) =>
      var k := FirstUnlistable(lib, 0, n);
      var s := [DeviceCount(n)] + ListingLines(lib, k) + (if k < n then [FailureEvent(lib, k)] else []);
      assert s[0] == DeviceCount(n);
      s
  }

  /** The listing names no device at or after the first failing one, and
      lists every device before it. */
  lemma ListingStopsAtFirstFailure(lib: Library, i: nat)
    requires lib.count.Some? && i < lib.count.value && !Listable(lib, i)
    ensures forall e :: e in Listing(lib) && e.DeviceLine? ==> e.dev < i
    ensures forall j :: 0 <= j < FirstUnlistable(lib, 0, lib.count.value) ==> ListingLine(lib, j) in Listing(lib)
  {
    var n := lib.count.value;
    var k := FirstUnlistable(lib, 0, n);
    assert k <= i;
    var s := Listing(lib);
    assert s == [DeviceCount(n)] + ListingLines(lib, k) + [FailureEvent(lib, k)];
    forall e | e in s && e.DeviceLine?
      ensures e.dev < i
    {
      var p :| 0 <= p < |s| && s[p] == e;
      assert 1 <= p <= k;
      assert s[p] == ListingLines(lib, k)[p - 1];
    }
    forall j | 0 <= j < k
      ensures ListingLine(lib, j) in s
    {
      assert s[j + 1] == ListingLines(lib, k)[j];
    }
  }

  /** Three devices whose second one fails its PCI query: the listing shows
      device 0, reports device 1's failure, and never reaches device 2. */
  lemma ListingOfThreeWithSecondFailing(good: PciInfo)
    ensures
      var ok := Device(ValidHandle, Some("GPU"), Some(good), None, None, None, None, None, None, None, None);
      var bad := ok.(pci := None);
      Listing(Library(Some(3), [ok, bad, ok])) ==
        [DeviceCount(3), DeviceLine(0, "GPU", good.busId), PciQueryFailed(1)]
  {
    var ok := Device(ValidHandle, Some("GPU"), Some(good), None, None, None, None, None, None, None, None);
    var lib := Library(Some(3), [ok, ok.(pci := None), ok]);
    assert Listable(lib, 0) && !Listable(lib, 1);
    assert FirstUnlistable(lib, 0, 3) == 1;
  }

  // ---------------------------------------------------------------------
  // The backend's process-wide state and operations

  /** The globals of nvml.c: the library handle, the application's
      `opt_nonvml` flag that init sets on failure, and the table of function
      pointers, one field per pointer.
      `dlcloseCalls` counts how often shutdown has released the handle. */
  class NvmlState {
    var hDLL: bool
    var nonvml: bool
    var dlcloseCalls: nat

    // the function pointers: the symbol each was bound to, or None for NULL
    var errorString: Option<string>
    var init: Option<string>
    var deviceGetCount: Option<string>
    var deviceGetHandleByIndex: Option<string>
    var deviceGetName: Option<string>
    var deviceGetPciInfo: Option<string>
    var deviceGetTemperature: Option<string>
    var deviceGetFanSpeed: Option<string>
    var deviceGetClockInfo: Option<string>
    var deviceGetDefaultApplicationsClock: Option<string>
    var deviceGetPowerManagementLimit: Option<string>
    var deviceGetPowerUsage: Option<string>
    var shutdown: Option<string>

    /** The pointer kept for `ep`. */
    function Bound(ep: EntryPoint): Option<string>
      reads this
    {
      match ep
      case ErrorString => errorString
      case Init => init
      case DeviceGetCount => deviceGetCount
      case DeviceGetHandleByIndex => deviceGetHandleByIndex
      case DeviceGetName => deviceGetName
      case DeviceGetPciInfo => deviceGetPciInfo
      case DeviceGetTemperature => deviceGetTemperature
      case DeviceGetFanSpeed => deviceGetFanSpeed
      case DeviceGetClockInfo => deviceGetClockInfo
      case DeviceGetDefaultApplicationsClock => deviceGetDefaultApplicationsClock
      case DeviceGetPowerManagementLimit => deviceGetPowerManagementLimit
      case DeviceGetPowerUsage => deviceGetPowerUsage
      case Shutdown => shutdown
    }

    /** Process start: no handle, no pointer bound; `opt_nonvml` is what the
        command line set. */
    constructor (optNonvml: bool)
      ensures !hDLL && nonvml == optNonvml && dlcloseCalls == 0
      ensures forall ep :: Bound(ep).None?
    {
      hDLL, nonvml, dlcloseCalls := false, optNonvml, 0;
      errorString, init, deviceGetCount, deviceGetHandleByIndex := None, None, None, None;
      deviceGetName, deviceGetPciInfo, deviceGetTemperature, deviceGetFanSpeed := None, None, None, None;
      deviceGetClockInfo, deviceGetDefaultApplicationsClock := None, None;
      deviceGetPowerManagementLimit, deviceGetPowerUsage, shutdown := None, None, None;
    }

    /** `nvml_init`. `exports` is the result of opening the library (`None`
        when it cannot be opened, else the names it exports) and `initOk`
        is what the bound init entry point returns. Nothing guards against
        a second call: each call reopens and rebinds. */
    method Init(exports: Option<set<string>>, initOk: bool) returns (events: seq<LogEvent>)
      modifies this
      ensures hDLL == exports.Some? && dlcloseCalls == old(dlcloseCalls)
      ensures exports.None? ==>
        nonvml && (forall ep :: Bound(ep) == old(Bound(ep))) && events == [LibraryNotLoaded]
      ensures exports.Some? && ChosenVersion(exports.value).None? ==>
        nonvml && Bound(EntryPoint.Init).None? &&
        (forall ep :: ep != EntryPoint.Init ==> Bound(ep) == old(Bound(ep))) &&
        events == [InitUnresolved]
      ensures exports.Some? && ChosenVersion(exports.value).Some? ==>
        nonvml == old(nonvml) &&
        (forall ep :: Bound(ep) == BoundAfterInit(exports.value, ChosenVersion(exports.value).value, ep)) &&
        events == (if initOk then [] else [InitFailed])
    {
      hDLL := exports.Some?;
      if exports.None? {
        nonvml := true;
        return [LibraryNotLoaded];
      }
      var syms := exports.value;

      init := Dlsym(syms, "nvmlInit_v2");
      if init.None? {
        // try the older interface
        init := Dlsym(syms, "nvmlInit");
        if init.None? {
          nonvml := true;
          return [InitUnresolved];
        }
        deviceGetCount := Dlsym(syms, "nvmlDeviceGetCount");
        deviceGetHandleByIndex := Dlsym(syms, "nvmlDeviceGetHandleByIndex");
        deviceGetPciInfo := Dlsym(syms, "nvmlDeviceGetPciInfo");
      } else {
        deviceGetCount := Dlsym(syms, "nvmlDeviceGetCount_v2");
        deviceGetHandleByIndex := Dlsym(syms, "nvmlDeviceGetHandleByIndex_v2");
        deviceGetPciInfo := Dlsym(syms, "nvmlDeviceGetPciInfo_v2");
      }

      BindUnversioned(syms);
      events := if initOk then [] else [InitFailed];
    }

    /** The pointers with one name in both API generations, each bound on
        its own whether or not the others resolve. */
    method BindUnversioned(syms: set<string>)
      modifies this`errorString, this`deviceGetName, this`deviceGetTemperature, this`deviceGetFanSpeed,
               this`deviceGetClockInfo, this`deviceGetDefaultApplicationsClock,
               this`deviceGetPowerManagementLimit, this`deviceGetPowerUsage, this`shutdown
      ensures forall ep :: !Versioned(ep) ==> Bound(ep) == Dlsym(syms, SymbolName(ep, V2))
    {
      errorString := Dlsym(syms, "nvmlErrorString");
      deviceGetName := Dlsym(syms, "nvmlDeviceGetName");
      deviceGetTemperature := Dlsym(syms, "nvmlDeviceGetTemperature");
      deviceGetFanSpeed := Dlsym(syms, "nvmlDeviceGetFanSpeed");
      deviceGetClockInfo := Dlsym(syms, "nvmlDeviceGetClockInfo");
      deviceGetDefaultApplicationsClock := Dlsym(syms, "nvmlDeviceGetDefaultApplicationsClock");
      deviceGetPowerManagementLimit := Dlsym(syms, "nvmlDeviceGetPowerManagementLimit");
      deviceGetPowerUsage := Dlsym(syms, "nvmlDeviceGetPowerUsage");
      shutdown := Dlsym(syms, "nvmlShutdown");
    }

    /** `nvml_gpu_id`: a linear search over the counted indices that skips
        any index whose handle or PCI query fails. */
    method GpuId(busid: uint32, lib: Library) returns (dev: uint32, events: seq<LogEvent>)
      ensures dev == ResolveIndex(lib, busid)
      ensures events == ResolveEvents(lib)
    {
      if lib.count.None? {
        return UINT_MAX, [DeviceQueryFailed];
      }
      var devnum := lib.count.value;
      var matched := false;
      dev := 0;
      while dev < devnum
        invariant dev <= devnum && !matched
        invariant forall j :: 0 <= j < dev ==> !Matches(lib, j, busid)
      {
        var d := lib.At(dev);
        if d.handle.HandleError? {
          dev := dev + 1;
          continue;
        }
        if d.pci.None? {
          dev := dev + 1;
          continue;
        }
        if d.pci.value.bus == busid {
          matched := true;
          break;
        }
        dev := dev + 1;
      }
      events := [];
      if !matched {
        dev := UINT_MAX;
        return;
      }
      assert Matches(lib, dev, busid);
    }

    /** `nvml_gpu_temp_and_fanspeed`: both readings are -1 unless the bus
        resolves to a usable handle; then each is -1 exactly when its own
        call fails (or, for the fan, when its reading wraps to -1 in the
        `(int)` cast). */
    method GpuTempAndFanspeed(busid: uint32, lib: Library, later: Library)
      returns (temp: real, fanspeed: int, events: seq<LogEvent>)
      ensures events == ResolveEvents(lib)
      ensures QueriedDevice(busid, lib, later).None? ==> temp == -1.0 && fanspeed == -1
      ensures QueriedDevice(busid, lib, later).Some? ==>
        var d := QueriedDevice(busid, lib, later).value;
        (temp == -1.0 <==> d.temperature.None?) &&
        (d.temperature.Some? ==> temp == d.temperature.value as real) &&
        (fanspeed == -1 <==> d.fanSpeed.None? || d.fanSpeed.value == UINT_MAX) &&
        (d.fanSpeed.Some? ==> fanspeed == ToInt(d.fanSpeed.value))
    {
      var dev;
      dev, events := GpuId(busid, lib);
      if dev == UINT_MAX {
        return -1.0, -1, events;
      }
      var d := later.At(dev);
      if !d.handle.ValidHandle? {
        return -1.0, -1, events;
      }
      temp := if d.temperature.None? then -1.0 else d.temperature.value as real;
      fanspeed := if d.fanSpeed.None? then -1 else ToInt(d.fanSpeed.value);
    }

    /** `nvml_gpu_clocks`: current SM and memory clocks, each 0 when its own
        call fails, both 0 unless the bus resolves to a usable handle. */
    method GpuClocks(busid: uint32, lib: Library, later: Library)
      returns (gpuClock: uint32, memClock: uint32, events: seq<LogEvent>)
      ensures events == ResolveEvents(lib)
      ensures QueriedDevice(busid, lib, later).None? ==> gpuClock == 0 && memClock == 0
      ensures QueriedDevice(busid, lib, later).Some? ==>
        var d := QueriedDevice(busid, lib, later).value;
        gpuClock == OrSentinel(d.smClock, 0) && memClock == OrSentinel(d.memClock, 0)
    {
      gpuClock, memClock := 0, 0;
      var dev;
      dev, events := GpuId(busid, lib);
      if dev == UINT_MAX {
        return;
      }
      var d := later.At(dev);
      if !d.handle.ValidHandle? {
        return;
      }
      gpuClock := if d.smClock.None? then 0 else d.smClock.value;
      memClock := if d.memClock.None? then 0 else d.memClock.value;
    }

    /** `nvml_gpu_defclocks`: like the current clocks, but both are 0 when
        the default-clock entry point was never bound. */
    method GpuDefclocks(busid: uint32, lib: Library, later: Library)
      returns (gpuClock: uint32, memClock: uint32, events: seq<LogEvent>)
      ensures events == ResolveEvents(lib)
      ensures Bound(DeviceGetDefaultApplicationsClock).None? ==> gpuClock == 0 && memClock == 0
      ensures QueriedDevice(busid, lib, later).None? ==> gpuClock == 0 && memClock == 0
      ensures Bound(DeviceGetDefaultApplicationsClock).Some? && QueriedDevice(busid, lib, later).Some? ==>
        var d := QueriedDevice(busid, lib, later).value;
        gpuClock == OrSentinel(d.defaultGraphicsClock, 0) && memClock == OrSentinel(d.defaultMemClock, 0)
    {
      gpuClock, memClock := 0, 0;
      var dev;
      dev, events := GpuId(busid, lib);
      if dev == UINT_MAX || deviceGetDefaultApplicationsClock.None? {
        return;
      }
      var d := later.At(dev);
      if !d.handle.ValidHandle? {
        return;
      }
      gpuClock := if d.defaultGraphicsClock.None? then 0 else d.defaultGraphicsClock.value;
      memClock := if d.defaultMemClock.None? then 0 else d.defaultMemClock.value;
    }

    /** `nvml_gpu_usage`: power draw and limit in whole watts (milliwatts
        rounded down), each 0 when its own call fails, both 0 unless the bus
        resolves to a usable handle. */
    method GpuUsage(busid: uint32, lib: Library, later: Library)
      returns (watts: uint32, limit: uint32, events: seq<LogEvent>)
      ensures events == ResolveEvents(lib)
      ensures QueriedDevice(busid, lib, later).None? ==> watts == 0 && limit == 0
      ensures QueriedDevice(busid, lib, later).Some? ==>
        var d := QueriedDevice(busid, lib, later).value;
        (d.powerUsage.None? ==> watts == 0) &&
        (d.powerUsage.Some? ==> watts * 1000 <= d.powerUsage.value < watts * 1000 + 1000) &&
        (d.powerLimit.None? ==> limit == 0) &&
        (d.powerLimit.Some? ==> limit * 1000 <= d.powerLimit.value < limit * 1000 + 1000)
    {
      watts, limit := 0, 0;
      var dev;
      dev, events := GpuId(busid, lib);
      if dev == UINT_MAX {
        return;
      }
      var d := later.At(dev);
      if !d.handle.ValidHandle? {
        return;
      }
      watts := if d.powerUsage.None? then 0 else Watts(d.powerUsage.value);
      limit := if d.powerLimit.None? then 0 else Watts(d.powerLimit.value);
    }

    /** `nvml_gpu_ids`: vendor and device id from the low and high halves of
        the PCI device id, and (only when the caller asks, `wantSubsystem`
        standing for a non-NULL `svid`) the same split of the subsystem id.
        All are 0 unless the bus resolves to a usable handle whose PCI
        record, queried again, still carries the requested bus. */
    method GpuIds(busid: uint32, lib: Library, later: Library, wantSubsystem: bool)
      returns (vid: int, pid: int, svid: Option<int>, spid: Option<int>, events: seq<LogEvent>)
      ensures events == ResolveEvents(lib)
      ensures svid.Some? == wantSubsystem && spid.Some? == wantSubsystem
      ensures
        var q := QueriedDevice(busid, lib, later);
        if q.Some? && q.value.pci.Some? && q.value.pci.value.bus == busid then
          var pci := q.value.pci.value;
          0 <= vid < 0x1_0000 && 0 <= pid < 0x1_0000 && vid + 0x1_0000 * pid == pci.pciDeviceId &&
          (wantSubsystem ==>
            0 <= svid.value < 0x1_0000 && 0 <= spid.value < 0x1_0000 &&
            svid.value + 0x1_0000 * spid.value == pci.pciSubSystemId)
        else
          vid == 0 && pid == 0 && (wantSubsystem ==> svid.value == 0 && spid.value == 0)
    {
      vid, pid := 0, 0;
      svid, spid := None, None;
      if wantSubsystem {
        svid, spid := Some(0), Some(0);
      }
      var dev;
      dev, events := GpuId(busid, lib);
      if dev == UINT_MAX {
        return;
      }
      var d := later.At(dev);
      if !d.handle.ValidHandle? {
        return;
      }
      if d.pci.None? {
        return;
      }
      var pci := d.pci.value;
      if pci.bus != busid {
        return;
      }
      vid := Low16(pci.pciDeviceId);
      pid := High16(pci.pciDeviceId);
      SplitPciId(pci.pciDeviceId);
      if wantSubsystem {
        svid := Some(Low16(pci.pciSubSystemId));
        spid := Some(High16(pci.pciSubSystemId));
        SplitPciId(pci.pciSubSystemId);
      }
    }

    /** `nvml_print_devices`: the device count, then one line per device in
        index order, stopping with a failure message at the first device
        whose handle, name or PCI query fails. */
    method PrintDevices(lib: Library) returns (events: seq<LogEvent>)
      ensures events == Listing(lib)
    {
      if lib.count.None? {
        return [DeviceCountFailed];
      }
      var devnum := lib.count.value;
      events := [DeviceCount(devnum)];
      if devnum == 0 {
        return;
      }
      var dev: uint32 := 0;
      while dev < devnum
        invariant dev <= devnum
        invariant forall j :: 0 <= j < dev ==> Listable(lib, j)
        invariant events == [DeviceCount(devnum)] + ListingLines(lib, dev)
      {
        var d := lib.At(dev);
        if d.handle.HandleError? {
          events := events + [HandleQueryFailed(dev)];
          assert !Listable(lib, dev);
          return;
        }
        if d.name.None? {
          events := events + [NameQueryFailed(dev)];
          assert !Listable(lib, dev);
          return;
        }
        if d.pci.None? {
          events := events + [PciQueryFailed(dev)];
          assert !Listable(lib, dev);
          return;
        }
        assert ListingLines(lib, dev + 1) == ListingLines(lib, dev) + [ListingLine(lib, dev)];
        events := events + [DeviceLine(dev, d.name.value, d.pci.value.busId)];
        dev := dev + 1;
      }
      assert FirstUnlistable(lib, 0, devnum) == devnum;
    }

    /** `nvml_shutdown`: the library handle is released only when the
        library's shutdown entry point succeeds (`shutdownOk`), and only if
        a handle is held. Nothing guards against a failed init or a second
        call. */
    method Shutdown(shutdownOk: bool) returns (events: seq<LogEvent>)
      modifies this`dlcloseCalls
      ensures dlcloseCalls == old(dlcloseCalls) + (if shutdownOk && hDLL then 1 else 0)
      ensures events == if shutdownOk then [] else [ShutdownFailed]
    {
      if !shutdownOk {
        return [ShutdownFailed];
      }
      if hDLL {
        dlcloseCalls := dlcloseCalls + 1;
      }
      events := [];
    }
  }
}
