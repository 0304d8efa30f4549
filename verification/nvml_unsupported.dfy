/** The NVIDIA backend as built for a platform other than Linux and Windows:
    init only switches monitoring off, and the queries it provides report
    "unknown". */
module NvmlUnsupported {
  import opened CTypes
  import Nvml

  /** The only state these stubs touch: the application's `opt_nonvml` flag. */
  class NvmlStub {
    var nonvml: bool

    constructor (optNonvml: bool)
      ensures nonvml == optNonvml
    {
      nonvml := optNonvml;
    }

    /** `nvml_init`: no library is looked for; monitoring is disabled. */
    method Init()
      modifies this
      ensures nonvml
    {
      nonvml := true;
    }

    /** `nvml_gpu_temp_and_fanspeed`: both readings are the "unknown"
        sentinel whatever the bus. */
    method GpuTempAndFanspeed(busid: uint32) returns (temp: real, fanspeed: int)
      ensures temp == -1.0 && fanspeed == -1
    {
      temp, fanspeed := -1.0, -1;
    }

    /** `nvml_print_devices`: lists nothing. */
    method PrintDevices() returns (events: seq<Nvml.LogEvent>)
      ensures events == []
    {
      events := [];
    }

    /** `nvml_shutdown`: does nothing. */
    method Shutdown()
      ensures unchanged(this)
    {
    }
  }
}
