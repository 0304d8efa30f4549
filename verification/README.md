# GPU telemetry layer of sgminer-sonoa, modelled in Dafny

This project models the GPU monitoring layer of the miner. That layer has two
backends:

- `nvml.c` drives NVIDIA cards through the NVIDIA Management Library (NVML),
  which is loaded at run time.
  - `nvml_init` opens the library and binds its entry points. It prefers the
    `_v2` API generation and falls back to the legacy one.
  - Callers identify a card by its PCI bus number. `nvml_gpu_id` maps that
    number to an NVML index by a linear search.
  - The query functions report temperature and fan speed, current and default
    clocks, power draw and limit, and the PCI vendor, device and subsystem
    ids. Each output falls back to a sentinel (`-1` or `0`) when the query
    behind it fails.
  - `nvml_print_devices` lists the devices to the log. `nvml_shutdown`
    releases the library.
- `sysfs.c` serves amdgpu cards. It walks `/sys/class/hwmon/hwmon0`,
  `hwmon1`, … and stops at the first directory that is missing. A directory
  with a `pwm1` file counts as one GPU. For the requested GPU it rescales
  `pwm1` (0–255) to a percentage and converts `temp1_input` from
  millidegrees to degrees.

The library and the filesystem are treated as data:

- **NVML.** The library is either absent (`None`) or the set of symbol names
  it exports. `NvmlLibrary.Library` records the answers it gives at one
  moment:
  - the device count, or a failure;
  - for each index: the handle query (error, NULL or usable handle), and the
    name, PCI record, temperature, fan speed, clocks and power readings
    obtained with that handle. Each one is either a value or a failure.
- **Snapshots.** The resolver and the query it serves may see the library in
  different states, because NVML can renumber devices between calls. So each
  query takes two snapshots: `lib`, seen by the resolver, and `later`, seen by
  the query's own calls.
- **sysfs.** The filesystem is a sequence with one entry per `hwmonN`. An
  entry is `None` when the directory does not exist. Otherwise it says
  whether `pwm1` exists, and gives the integer parsed from `pwm1` and from
  `temp1_input`; each of those two is `None` when the file cannot be opened
  or parsed.

Layout:

- `wrappers.dfy`: `Option`.
- `ctypes.dfy`: `unsigned int`, `int`, `UINT_MAX` and the `(int)` cast.
- `nvml_library.dfy`: the library as data, and its versioned symbol table.
- `nvml_units.dfy`: milliwatts to watts, and splitting a PCI id into halves.
- `nvml.dfy`: specification functions and lemmas, and the class
  `NvmlState`. Its fields are the globals of `nvml.c`:
  - `hDLL`;
  - the application's `opt_nonvml` flag;
  - one field per function pointer;
  - a count of `dlclose` calls.
  Every function of the Linux/Windows build of `nvml.c` is a method of this
  class. Log messages come
  back as a sequence of abstract `LogEvent`s.
- `nvml_unsupported.dfy`: the stubs compiled on other platforms.
- `sysfs.dfy`: the hwmon scan, its specification and the lemmas about it.

What the code does not guard against, and the model with it:

- `nvml_init` has no guard against a second call (nvml.c:49-117), so
  `NvmlState.Init` reopens the library on every call. Only a call that opens
  it and resolves an init symbol rebinds every pointer. Any other call leaves
  the earlier bindings in place, and a failed reopen also sets `hDLL` to NULL
  without closing the earlier library.
- `nvml_shutdown` calls the shutdown entry point even after a failed init
  (nvml.c:315), and `NvmlState.Shutdown` does the same.
- The queries never read `opt_nonvml`.

## Model

| member | source | states |
|---|---|---|
| `NvmlLibrary.Dlsym` | nvml.c:69-72 | a symbol resolves exactly when the library exports that name, and resolves to that name |
| `Nvml.NvmlState.constructor` | nvml.c:35-47 | at process start no library handle is held and every function pointer is NULL |
| `Nvml.NvmlState.Init` | nvml.c:49-117 | library cannot be opened: `hDLL` NULL, `opt_nonvml` set, no pointer changes, one log message. Neither init symbol resolves: `opt_nonvml` set, init pointer NULL, all other pointers keep their values. Otherwise every pointer holds its symbol under the chosen generation (NULL where that symbol is not exported), `opt_nonvml` is untouched, and a failed init call is only logged |
| `Nvml.NvmlState.BindUnversioned` | nvml.c:94-111 | each of the nine unversioned pointers is bound to its own name if exported, independently of the others; the versioned pointers are untouched |
| `NvmlLibrary.SymbolNameGenerations` | nvml.c:69-111 | the symbol table: a count, handle, PCI-info or init symbol's `_v2` name is its legacy name plus `_v2`; every other entry point has one name in both generations; only `_v2` names end in the suffix |
| `Nvml.ChosenVersion` | nvml.c:69-76 | the chosen generation's init symbol is exported; anything but `_v2` is chosen only when `nvmlInit_v2` is missing; nothing is chosen only when no init symbol is exported |
| `Nvml.ChosenVersionPrefersV2` | nvml.c:69-77 | `_v2` is chosen iff `nvmlInit_v2` is exported; legacy iff only `nvmlInit` is; nothing iff neither |
| `Nvml.VersionConsistency` | nvml.c:69-92 | after a successful init, a bound count, handle or PCI-info pointer carries `_v2` exactly when the init pointer does |
| `Nvml.FirstMatchFrom` | nvml.c:130-143 | returns the least index in the range whose handle and PCI queries succeed with the requested bus, or nothing when no index in the range matches |
| `Nvml.ResolveIndex` | nvml.c:120-148 | a non-sentinel result is a counted index that matches, and no smaller index matches; `UINT_MAX` means the count failed or no counted index matches |
| `Nvml.NvmlState.GpuId` | nvml.c:120-148 | the loop, which skips indices whose handle or PCI query fails, returns exactly `ResolveIndex` and logs only a failed count |
| `Nvml.ResolveIsDeterministic` | nvml.c:120-148 | any two indices meeting the resolver's specification are equal, so against unchanged answers the resolver always returns the same index |
| `Nvml.QueriedDevice` | nvml.c:156-168 | a query reaches a device exactly when the bus resolves and the handle re-queried for that index is non-NULL, and it then uses that index's answers |
| `CTypes.ToInt` | nvml.c:173 | `(int)` of an `unsigned int` is the unique 32-bit signed value congruent to it modulo 2^32 |
| `Nvml.NvmlState.GpuTempAndFanspeed` | nvml.c:150-174 | both outputs are -1 unless a device is reached. Otherwise temperature is -1 exactly when its call fails, and fan speed is -1 exactly when its call fails or its reading wraps to -1; the two are independent |
| `Nvml.NvmlState.GpuClocks` | nvml.c:176-197 | both clocks are 0 unless a device is reached; each clock is otherwise its own reading, or 0 when its call fails |
| `Nvml.NvmlState.GpuDefclocks` | nvml.c:199-220 | both default clocks are 0 when the default-clock pointer is NULL or no device is reached; each is otherwise its own reading, or 0 when its call fails |
| `NvmlUnits.Watts` | nvml.c:239-242 | integer division by 1000 rounds down: `w*1000 <= mw < w*1000 + 1000` |
| `Nvml.NvmlState.GpuUsage` | nvml.c:222-243 | both outputs are 0 unless a device is reached; each is otherwise 0 when its call fails, else its milliwatts rounded down to watts |
| `NvmlUnits.Low16` | nvml.c:262 | the low half of a PCI id is below 2^16 and congruent to the id modulo 2^16 |
| `NvmlUnits.High16` | nvml.c:263 | the high half of a PCI id is below 2^16 and is the id divided by 2^16, rounded down |
| `NvmlUnits.SplitPciId` | nvml.c:262-266 | low half plus 65536 times high half gives back the id |
| `Nvml.NvmlState.GpuIds` | nvml.c:245-268 | vendor and device id split the PCI device id, and the subsystem pair splits the subsystem id; all are 0 unless a device is reached whose re-queried PCI record still has the requested bus; subsystem outputs exist exactly when the caller asks for them |
| `Nvml.BusRecheckPassesWhenStable` | nvml.c:257-261 | when the answers did not change between resolving and querying, the identity query's bus re-check always passes |
| `Nvml.FirstUnlistable` | nvml.c:283-310 | the first index in the range whose handle, name or PCI query fails, or the end of the range; every index before it is listable |
| `Nvml.ListingLines` | nvml.c:309 | one line per index below `k`, in index order, each with that device's name and bus string |
| `Nvml.FailureEvent` | nvml.c:288-307 | for a device that cannot be listed, the message names that device and the first failing query in the order handle, name, PCI |
| `Nvml.Listing` | nvml.c:273-310 | a failed count gives exactly one message. Otherwise the log starts with the count and has at most count + 1 entries; every entry after the count except possibly the last is a device line; a device line at position p lists device p - 1, which answered all three queries |
| `Nvml.NvmlState.PrintDevices` | nvml.c:270-311 | a failed count logs one message. Otherwise the log is the count, then the lines for devices `0..k-1`, where `k` is the first failing device, then that device's failure message if there is one |
| `Nvml.ListingStopsAtFirstFailure` | nvml.c:283-310 | no device line at or after any failing device is emitted, and every device before the first failure is listed |
| `Nvml.ListingOfThreeWithSecondFailing` | nvml.c:302-307 | with three devices where the second fails its PCI query, the log is the count, device 0's line and device 1's failure; device 2 is never reached |
| `Nvml.NvmlState.Shutdown` | nvml.c:313-321 | the handle is released on each call whose library shutdown succeeds while a handle is held (`hDLL` is never cleared); a failed shutdown only logs |
| `NvmlUnsupported.NvmlStub.Init` | nvml.c:327-329 | on unsupported platforms init only sets `opt_nonvml` |
| `NvmlUnsupported.NvmlStub.GpuTempAndFanspeed` | nvml.c:331-334 | on unsupported platforms both readings are -1 for every bus |
| `NvmlUnsupported.NvmlStub.PrintDevices` | nvml.c:336 | on unsupported platforms nothing is listed |
| `NvmlUnsupported.NvmlStub.Shutdown` | nvml.c:338 | on unsupported platforms shutdown changes nothing |
| `Sysfs.Visible` | sysfs.c:20-49 | the examined directories are exactly the existing `hwmonN` before the first missing number |
| `Sysfs.FanDirs` | sysfs.c:27-47 | the directories that receive a GPU ordinal all contain `pwm1` |
| `Sysfs.FanPercent` | sysfs.c:34 | the fan percentage is the integer nearest to `pwm*100/255`, never a tie, and lies in 0..100 for pwm in 0..255 |
| `Sysfs.NearestPercent` | sysfs.c:34 | for a non-negative pwm, `(200*pwm + 255) / 510` is within one half of `pwm*100/255` |
| `Sysfs.FanPercentExamples` | sysfs.c:34 | pwm 0, 255 and 128 give 0%, 100% and 50% |
| `Sysfs.DirReading` | sysfs.c:30-44 | temperature is the parsed `temp1_input` value divided by 1000, or -1 when it does not parse; fan speed is the nearest percentage to the parsed `pwm1` value, or -1 when it does not parse; each independently of the other |
| `Sysfs.TempAndFanspeed` | sysfs.c:12-50 | the scan returns the reading of the `gpuid`-th pwm-bearing directory before the first gap, or (-1, -1) when there are fewer than `gpuid+1` of them |
| `Sysfs.FanDirsPrefix` | sysfs.c:27-46 | the ordinals handed out over a prefix of the directories are kept when the scan continues |
| `Sysfs.TargetOfOrdinal` | sysfs.c:27-46 | a pwm-bearing directory receives as its ordinal the number of pwm-bearing directories before it |
| `Sysfs.OrdinalIncreases` | sysfs.c:46 | ordinals strictly increase past a pwm-bearing directory, so no two share one |
| `Sysfs.FanDirSource` | sysfs.c:27-46 | each ordinal in use belongs to a pwm-bearing directory |
| `Sysfs.TargetExists` | sysfs.c:29 | if there are more than `gpuid` pwm-bearing directories, some directory has ordinal `gpuid` |
| `Sysfs.TargetReading` | sysfs.c:29-45 | the result is the reading of the directory whose ordinal equals `gpuid` |
| `Sysfs.TargetIsUnique` | sysfs.c:29-46 | at most one directory has ordinal `gpuid` |
| `Sysfs.NoTargetMeansUnknown` | sysfs.c:17-25 | without a directory of ordinal `gpuid`, including when no hwmon directory exists, both outputs stay -1 |
| `Sysfs.VisibleStopsAtGap` | sysfs.c:24-25 | the directories after the first missing number are not examined |
| `Sysfs.GapHidesRest` | sysfs.c:24-25 | directories after a numbering gap never change the result |
| `Sysfs.VisibleUpdate` | sysfs.c:24-25 | changing one existing directory changes the examined sequence only at that position, or not at all past a gap |
| `Sysfs.FanDirsUpdate` | sysfs.c:27-46 | changing one directory's file contents, but not whether `pwm1` exists, changes the ordinal list only at that directory's ordinal |
| `Sysfs.OnlyTargetIsRead` | sysfs.c:29-45 | changing the `pwm1` or `temp1_input` contents of any directory other than the target leaves the result unchanged |

## Left out

- Opening the library (`dlopen`, and on Windows `LoadLibrary` plus the
  `%ProgramFiles%` path expansion) is foreign loader code. The model reduces
  it to "could not be opened" or "opened, exporting these names".
- The NVML calls are modelled only through their answers, which the caller
  supplies as data.
- Calling through a function pointer that init left NULL is undefined
  behaviour in C. The model does not represent it: every pointer a query
  calls is assumed to answer.
  - This matters when a query runs without a successful init.
  - It matters when shutdown runs after a failed init.
  - It matters for `nvmlErrorString`, which is called on error paths.
  - It matters after a successful init when the library does not export some
    other symbol: init leaves that pointer NULL, and the code calls it without
    a test. The untested call sites are:
    - the count, handle and PCI-info calls at nvml.c:124, 133, 136, 163, 188,
      211, 234, 257, 259, 273, 288 and 302;
    - temperature and fan speed at nvml.c:170 and 172;
    - the clocks at nvml.c:193 and 195;
    - power draw and limit at nvml.c:239 and 241;
    - the name at nvml.c:295.
    Only `nvml_gpu_defclocks` tests its entry point for NULL (nvml.c:207). The
    model's queries return the library's answers in all these cases.
- `nvmlErrorString` and all `applog` formatting are left out. Log messages
  are abstract `LogEvent` values without error strings.
- Nvml.NvmlState.GpuDefclocks: nothing records which NVML calls a query
  makes. So the model does not capture that `nvml_gpu_defclocks` skips the
  handle and clock queries when its pointer is NULL; only the zero outputs
  are modelled. The resolver still runs before that test (nvml.c:206-207),
  which the model keeps through `events == ResolveEvents(lib)`.
- Nvml.NvmlState.GpuTempAndFanspeed: temperature is an exact `real`. The
  single-precision rounding of `(float)nTemp` above 2^24 is not modelled.
- Sysfs.TempAndFanspeed: temperature is the exact quotient `t / 1000`, not
  its `float` rounding.
- Sysfs.FanPercent: this is the exact rounding of `pwm*100/255`.
  - Not modelled: `float` rounding of `pwm*100` when `|pwm|` exceeds 167772.
  - Not modelled: `int` overflow of `pwm*100` when `|pwm|` exceeds 21474836.
  - For every `pwm` in the 0–255 range the file is specified to hold, the
    result is exact.
- The sysfs path building with `sprintf`, and the `stat`, `fopen` and
  `fscanf` calls, are filesystem I/O. They are replaced by the directory
  sequence described above.
- Nvml.NvmlState.Shutdown: `dlcloseCalls` counts releases. The state of the
  dynamic loader itself is not modelled.
- The unsupported-platform build has no stubs for the clock, default-clock,
  power and identity queries. Nothing is modelled for them there.
- `algorithm/sonoa.h` only declares external hashing functions with no
  bodies, so it is not part of this model.
- The code has no locking, so the model makes no concurrency claims.
