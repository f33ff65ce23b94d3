/** The decision logic of `src/app.rs`: picking the physical device,
    mapping debug-messenger severities to log levels, and the part of
    `App::new` that turns the queue-family scan into the queue family the
    logical device is created with. */
module App {
  import opened Wrappers
  import opened Vk
  import opened QueueFamilies

  /** Why application start-up stops: a `VkResult` error propagated by `?`,
      the "No GPU???" error of an empty device list, or the panic of
      `.graphics.unwrap()` on an unresolved graphics index. */
  datatype AppError = VkError(code: ErrorCode) | NoGpu | GraphicsUnresolved

  /** A driver error propagated by `?` into the `anyhow` error of start-up. */
  function Lift<T>(query: Result<T, ErrorCode>): Result<T, AppError> {
    match query
    case Success(v) => Success(v)
    case Failure(e) => Failure(VkError(e))
  }

  /** `pick_physical_device`: the enumeration error if the query fails,
      `NoGpu` for an empty list, and otherwise the first device listed. */
  function PickPhysicalDevice(enumerated: Result<seq<Handle>, ErrorCode>): (r: Result<Handle, AppError>)
    ensures enumerated.Failure? ==> r == Failure(VkError(enumerated.error))
    ensures enumerated.Success? && |enumerated.value| == 0 ==> r == Failure(NoGpu)
    ensures r.Success? ==> enumerated.Success? && |enumerated.value| > 0 && r.value == enumerated.value[0]
    ensures enumerated.Success? && |enumerated.value| > 0 ==> r.Success?
  {
    var devices :- Lift(enumerated);
    if |devices| == 0 then Failure(NoGpu) else Success(devices[0])
  }

  /** The first device wins whatever follows it in the enumeration. */
  lemma PickIgnoresLaterDevices(first: Handle, rest: seq<Handle>, other: seq<Handle>)
    ensures PickPhysicalDevice(Success([first] + rest)) == PickPhysicalDevice(Success([first] + other))
    ensures PickPhysicalDevice(Success([first] + rest)) == Success(first)
  {
  }

  /** `log::Level`. */
  datatype Level = Error | Warn | Info | Debug | Trace

  /** The `match` on `message_severity` in `debug_callback`: each of the four
      single severity bits has its own level, and every other value,
      combined bits included, logs as a warning. */
  function SeverityLevel(severity: bv32): (level: Level)
    ensures level == Debug <==> severity == SEVERITY_VERBOSE
    ensures level == Info <==> severity == SEVERITY_INFO
    ensures level == Error <==> severity == SEVERITY_ERROR
    ensures level != Trace
  {
    if severity == SEVERITY_VERBOSE then Debug
    else if severity == SEVERITY_INFO then Info
    else if severity == SEVERITY_WARNING then Warn
    else if severity == SEVERITY_ERROR then Error
    else Warn
  }

  /** The severity bit each level is reported for; `Trace` is never produced
      and has no bit. */
  function LevelSeverity(level: Level): (severity: Option<bv32>)
    ensures severity.None? <==> level == Trace
  {
    match level
    case Error => Some(SEVERITY_ERROR)
    case Warn => Some(SEVERITY_WARNING)
    case Info => Some(SEVERITY_INFO)
    case Debug => Some(SEVERITY_VERBOSE)
    case Trace => None
  }

  /** Mapping a level's severity bit back gives the level: the four
      recognised severities map to four distinct levels. */
  lemma SeverityLevelRoundTrip(level: Level)
    requires level != Trace
    ensures SeverityLevel(LevelSeverity(level).value) == level
  {
  }

  /** A value with two or more severity bits set is logged as a warning. */
  lemma CombinedSeverityIsWarn(severity: bv32)
    requires severity & (severity - 1) != 0
    ensures SeverityLevel(severity) == Warn
  {
  }

  /** What `debug_callback` hands back: the level the message is logged at,
      and the `VkBool32` returned to the driver. */
  datatype CallbackOutcome = CallbackOutcome(level: Level, returned: U32)

  /** `debug_callback`, without the formatting of the message text: it logs
      at the mapped level and always tells the driver not to abort the call
      that triggered the message. */
  function DebugCallback(severity: bv32, messageType: bv32): (r: CallbackOutcome)
    ensures r.returned == FALSE
    ensures r.level == SeverityLevel(severity)
  {
    CallbackOutcome(SeverityLevel(severity), FALSE)
  }

  /** The device and queue family `App::new` creates its logical device
      with. */
  datatype DeviceSelection = DeviceSelection(physicalDevice: Handle, queueFamilyIndex: U32)

  /** `App::new` from the device pick to the queue create-info: pick the
      first device, scan the queue families of that device (`families`, one
      `support` answer per family against the window surface), and take the
      graphics index. The present index is never looked at. */
  function SelectDevice(enumerated: Result<seq<Handle>, ErrorCode>,
                        families: seq<QueueFamilyProperties>,
                        support: seq<SupportAnswer>): (r: Result<DeviceSelection, AppError>)
    requires WellFormed(families, support)
    ensures r.Success? ==> PickPhysicalDevice(enumerated) == Success(r.value.physicalDevice)
    ensures r.Success? ==> r.value.queueFamilyIndex < |families|
                           && SupportsGraphics(families[r.value.queueFamilyIndex])
    ensures PickPhysicalDevice(enumerated).Failure? ==> r == Failure(PickPhysicalDevice(enumerated).error)
    ensures PickPhysicalDevice(enumerated).Success? && ScanOutcome(families, support).Failure? ==>
              r == Failure(VkError(ScanOutcome(families, support).error))
    ensures PickPhysicalDevice(enumerated).Success? && ScanOutcome(families, support).Success?
            && ScanOutcome(families, support).value.graphics.Some? ==>
              r == Success(DeviceSelection(PickPhysicalDevice(enumerated).value,
                                           ScanOutcome(families, support).value.graphics.value))
    ensures PickPhysicalDevice(enumerated).Success? && ScanOutcome(families, support).Success?
            && ScanOutcome(families, support).value.graphics.None? ==>
              r == Failure(GraphicsUnresolved)
  {
    var device :- PickPhysicalDevice(enumerated);
    var indices :- Lift(ScanOutcome(families, support));
    match indices.graphics
    case None => Failure(GraphicsUnresolved)
    case Some(g) => Success(DeviceSelection(device, g))
  }

  /** Selection succeeds without any family able to present, as long as a
      graphics family exists and no query fails: nothing checks `present`. */
  lemma SelectionIgnoresPresentSupport(device: Handle, families: seq<QueueFamilyProperties>, support: seq<SupportAnswer>)
    requires WellFormed(families, support)
    requires forall j :: 0 <= j < |support| ==> support[j] == Success(false)
    requires exists g :: 0 <= g < |families| && SupportsGraphics(families[g])
    ensures SelectDevice(Success([device]), families, support).Success?
    ensures !ScanOutcome(families, support).value.IsCompleted()
  {
    ScanCompleteIff(families, support);
    var n := |families|;
    assert VisitedCount(families, support) == n;
    assert LastGraphics(families, n).Some?;
  }

  /** Without a graphics-capable family (and no failing query) start-up
      stops at the `unwrap` of the graphics index. */
  lemma SelectionNeedsGraphicsFamily(device: Handle, families: seq<QueueFamilyProperties>, support: seq<SupportAnswer>)
    requires WellFormed(families, support)
    requires forall j :: 0 <= j < |support| ==> support[j].Success?
    requires forall j :: 0 <= j < |families| ==> !SupportsGraphics(families[j])
    ensures SelectDevice(Success([device]), families, support) == Failure(GraphicsUnresolved)
  {
    NoGraphicsFamilyStillSucceeds(families, support);
  }
}
