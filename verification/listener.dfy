/**
 The hotplug listener of `src/udevdetect/listener.rs`: decoding of the
 action string, the skip-and-filter rule applied to every enumerated device
 and every monitor event, the record it emits, and the one-shot error report
 that makes `listen` fail exactly when the monitor could not be set up.
 udev itself (enumerator, monitor, `ppoll`) is replaced by its outputs:
 a sequence of devices and a sequence of polled events.
 */
module Listener {
  import opened Wrappers
  import opened UdevProps
  import opened Filters
  import opened Seqs

  /** `DevEventType`. */
  datatype DevEventType = Unknown | Add | Remove

  /** `DevEventType::from(&str)`: only the exact lower-case words are recognised. */
  function ActionFrom(raw: string): (t: DevEventType)
    ensures t == Add <==> raw == "add"
    ensures t == Remove <==> raw == "remove"
    ensures t == Unknown <==> raw != "add" && raw != "remove"
  {
    if raw == "add" then Add
    else if raw == "remove" then Remove
    else Unknown
  }

  /** `DevEvent`: what the listener hands to its consumer. */
  datatype DevEvent = DevEvent(
    action: DevEventType,
    vendor: string,
    product: string,
    name: string,
    inputClass: string,
    devpath: string,
    devname: string)

  /**
   `s` is what reading `key` from `props` yields: the UTF-8 text when the
   key is present with valid text, otherwise "".
   */
  predicate ReadsAs(props: PropMap, key: string, s: string) {
    if key in props && props[key].Utf8? then s == props[key].text else s == ""
  }

  /** Every string field of `ev` is the corresponding property of `props`. */
  predicate CopiesProps(ev: DevEvent, props: PropMap) {
    && ReadsAs(props, DevPathKey, ev.devpath)
    && ReadsAs(props, DevNameKey, ev.devname)
    && ReadsAs(props, InputClassKey, ev.inputClass)
    && ReadsAs(props, NameKey, ev.name)
    && ReadsAs(props, VendorKey, ev.vendor)
    && ReadsAs(props, ModelKey, ev.product)
  }

  predicate DeviceAdmitted(filters: seq<Filter>, d: Device) {
    exists i | 0 <= i < |filters| :: MatchDevice(filters[i], d)
  }

  predicate EventAdmitted(filters: seq<Filter>, e: Event) {
    exists i | 0 <= i < |filters| :: MatchEvent(filters[i], e)
  }

  /**
   For filters built by the constructors, admission is "some filter accepts
   the property map"; in particular an empty filter list admits nothing.
   */
  lemma AdmissionIsAnyMatch(filters: seq<Filter>, props: PropMap)
    requires forall i :: 0 <= i < |filters| ==> WellFormed(filters[i])
    ensures DeviceAdmitted(filters, Device(props)) <==> exists i :: 0 <= i < |filters| && Matches(filters[i], props)
    ensures EventAdmitted(filters, Event(props)) <==> exists i :: 0 <= i < |filters| && Matches(filters[i], props)
    ensures |filters| == 0 ==> !DeviceAdmitted(filters, Device(props)) && !EventAdmitted(filters, Event(props))
  {
  }

  /** The `matched` loop over the filters in the enumeration closure. */
  method AnyFilterMatchesDevice(filters: seq<Filter>, d: Device) returns (matched: bool)
    ensures matched <==> exists i | 0 <= i < |filters| :: MatchDevice(filters[i], d)
    ensures matched ==> |filters| > 0
  {
    matched := false;
    for i := 0 to |filters|
      invariant matched <==> exists j | 0 <= j < i :: MatchDevice(filters[j], d)
    {
      if MatchDevice(filters[i], d) {
        matched := true;
      }
    }
  }

  /** The `matched` loop over the filters in the monitor thread. */
  method AnyFilterMatchesEvent(filters: seq<Filter>, e: Event) returns (matched: bool)
    ensures matched <==> exists i | 0 <= i < |filters| :: MatchEvent(filters[i], e)
    ensures matched ==> |filters| > 0
  {
    matched := false;
    for i := 0 to |filters|
      invariant matched <==> exists j | 0 <= j < i :: MatchEvent(filters[j], e)
    {
      if MatchEvent(filters[i], e) {
        matched := true;
      }
    }
  }

  /** The enumeration closure: skip nodeless or unmatched devices, else an `Add` record. */
  function ClassifyDevice(filters: seq<Filter>, d: Device): (r: Option<DevEvent>)
    ensures r.Some? <==> GetDeviceProperty(d, DevNameKey) != "" && DeviceAdmitted(filters, d)
    ensures r.Some? ==> r.value.action == Add && r.value.devname != ""
    ensures r.Some? ==> CopiesProps(r.value, d.props)
  {
    if GetDeviceProperty(d, DevNameKey) == "" then None
    else if !DeviceAdmitted(filters, d) then None
    else Some(DevEvent(
      action := Add,
      devpath := GetDeviceProperty(d, DevPathKey),
      devname := GetDeviceProperty(d, DevNameKey),
      inputClass := GetDeviceProperty(d, InputClassKey),
      name := GetDeviceProperty(d, NameKey),
      vendor := GetDeviceProperty(d, VendorKey),
      product := GetDeviceProperty(d, ModelKey)))
  }

  /** One monitor event: skip nodeless or unmatched events, else a record with the decoded action. */
  function ClassifyEvent(filters: seq<Filter>, e: Event): (r: Option<DevEvent>)
    ensures r.Some? <==> GetEventProperty(e, DevNameKey) != "" && EventAdmitted(filters, e)
    ensures r.Some? ==> r.value.devname != ""
    ensures r.Some? ==> CopiesProps(r.value, e.props)
    ensures r.Some? ==> (r.value.action == Add <==> HasText(e.props, ActionKey, "add"))
    ensures r.Some? ==> (r.value.action == Remove <==> HasText(e.props, ActionKey, "remove"))
  {
    var action := GetEventProperty(e, ActionKey);
    if GetEventProperty(e, DevNameKey) == "" then None
    else if !EventAdmitted(filters, e) then None
    else Some(DevEvent(
      action := ActionFrom(action),
      devpath := GetEventProperty(e, DevPathKey),
      devname := GetEventProperty(e, DevNameKey),
      inputClass := GetEventProperty(e, InputClassKey),
      name := GetEventProperty(e, NameKey),
      vendor := GetEventProperty(e, VendorKey),
      product := GetEventProperty(e, ModelKey)))
  }

  /** Enumeration phase: `scan_devices` through the `filter_map` closure, collected in order. */
  function EnumerationPhase(filters: seq<Filter>, devices: seq<Device>): (r: seq<DevEvent>)
    ensures |r| <= |devices|
    ensures forall k :: 0 <= k < |r| ==> r[k].action == Add && r[k].devname != ""
    ensures forall k :: 0 <= k < |r| ==>
      exists j :: 0 <= j < |devices| && ClassifyDevice(filters, devices[j]) == Some(r[k])
    ensures |filters| == 0 ==> r == []
  {
    var f := (d: Device) => ClassifyDevice(filters, d);
    FilterMapOfClassify(filters, devices, f);
    FilterMap(f, devices)
  }

  lemma FilterMapOfClassify(filters: seq<Filter>, devices: seq<Device>, f: Device -> Option<DevEvent>)
    requires forall d :: f(d) == ClassifyDevice(filters, d)
    ensures forall k :: 0 <= k < |FilterMap(f, devices)| ==>
      exists j :: 0 <= j < |devices| && ClassifyDevice(filters, devices[j]) == Some(FilterMap(f, devices)[k])
    ensures |filters| == 0 ==> FilterMap(f, devices) == []
  {
    var r := FilterMap(f, devices);
    forall k | 0 <= k < |r|
      ensures exists j :: 0 <= j < |devices| && ClassifyDevice(filters, devices[j]) == Some(r[k])
    {
      FilterMapFrom(f, devices, k);
    }
    if |filters| == 0 {
      FilterMapNone(f, devices);
    }
  }

  /** The positions of the admitted devices in the scanned list. */
  ghost function AdmittedPositions(filters: seq<Filter>, devices: seq<Device>): seq<nat> {
    KeptIndices((d: Device) => ClassifyDevice(filters, d), devices, 0)
  }

  /**
   The enumeration phase emits, in scan order, exactly the records of the
   admitted devices: its k-th record comes from the device at the k-th
   admitted position, the positions increase, and every admitted device has one.
   */
  lemma EnumerationPhaseOrder(filters: seq<Filter>, devices: seq<Device>)
    ensures var r, idx := EnumerationPhase(filters, devices), AdmittedPositions(filters, devices);
      && |idx| == |r|
      && (forall k :: 0 <= k < |idx| ==>
            idx[k] < |devices| && ClassifyDevice(filters, devices[idx[k]]) == Some(r[k]))
      && StrictlyIncreasing(idx)
      && (forall j :: 0 <= j < |devices| && ClassifyDevice(filters, devices[j]).Some? ==> j in idx)
  {
    var f := (d: Device) => ClassifyDevice(filters, d);
    FilterMapOrder(f, devices);
  }

  /** What one wake-up of the monitor thread yields. */
  datatype Polled =
    | NoEvent                                  // `udevmon.next()` returned `None`
    | Received(ev: Event, delivered: bool)     // an event; `delivered` is whether `send` succeeded

  /**
   The record one wake-up of the monitor thread delivers: the classified
   event when it passed the skip-and-filter rule and `send` succeeded.
   */
  function MonitorItem(filters: seq<Filter>, item: Polled): (r: Option<DevEvent>)
    ensures r.Some? <==> item.Received? && item.delivered && ClassifyEvent(filters, item.ev).Some?
    ensures r.Some? ==> ClassifyEvent(filters, item.ev) == r
  {
    match item
    case NoEvent => None
    case Received(e, delivered) => if delivered then ClassifyEvent(filters, e) else None
  }

  /**
   Monitor phase: the records sent successfully to the consumer, in poll
   order. An empty poll and a failed send are skipped, and the loop goes on.
   */
  function MonitorPhase(filters: seq<Filter>, polled: seq<Polled>): (r: seq<DevEvent>)
    ensures |r| <= |polled|
    ensures forall k :: 0 <= k < |r| ==> r[k].devname != ""
    ensures forall k :: 0 <= k < |r| ==>
      exists j :: (0 <= j < |polled| && polled[j].Received? && polled[j].delivered
                   && ClassifyEvent(filters, polled[j].ev) == Some(r[k]))
    ensures |filters| == 0 ==> r == []
  {
    var g := (item: Polled) => MonitorItem(filters, item);
    FilterMapOfMonitor(filters, polled, g);
    FilterMap(g, polled)
  }

  lemma FilterMapOfMonitor(filters: seq<Filter>, polled: seq<Polled>, g: Polled -> Option<DevEvent>)
    requires forall item :: g(item) == MonitorItem(filters, item)
    ensures forall k :: 0 <= k < |FilterMap(g, polled)| ==>
      exists j :: (0 <= j < |polled| && polled[j].Received? && polled[j].delivered
                   && ClassifyEvent(filters, polled[j].ev) == Some(FilterMap(g, polled)[k]))
    ensures |filters| == 0 ==> FilterMap(g, polled) == []
  {
    var r := FilterMap(g, polled);
    forall k | 0 <= k < |r|
      ensures exists j :: (0 <= j < |polled| && polled[j].Received? && polled[j].delivered
                           && ClassifyEvent(filters, polled[j].ev) == Some(r[k]))
    {
      FilterMapFrom(g, polled, k);
    }
    if |filters| == 0 {
      FilterMapNone(g, polled);
    }
  }

  /** The positions of the polled items that reached the consumer. */
  ghost function DeliveredPositions(filters: seq<Filter>, polled: seq<Polled>): seq<nat> {
    KeptIndices((item: Polled) => MonitorItem(filters, item), polled, 0)
  }

  /**
   The monitor phase emits, in poll order, exactly the records of the
   received, admitted and delivered events: its k-th record comes from the
   item at the k-th delivered position, the positions increase, and every
   admitted event whose send succeeded has one.
   */
  lemma MonitorPhaseOrder(filters: seq<Filter>, polled: seq<Polled>)
    ensures var r, idx := MonitorPhase(filters, polled), DeliveredPositions(filters, polled);
      && |idx| == |r|
      && (forall k :: 0 <= k < |idx| ==>
            idx[k] < |polled| && polled[idx[k]].Received? && polled[idx[k]].delivered
            && ClassifyEvent(filters, polled[idx[k]].ev) == Some(r[k]))
      && StrictlyIncreasing(idx)
      && (forall j :: (0 <= j < |polled| && polled[j].Received? && polled[j].delivered
                       && ClassifyEvent(filters, polled[j].ev).Some?) ==> j in idx)
  {
    var g := (item: Polled) => MonitorItem(filters, item);
    FilterMapOrder(g, polled);
  }

  /** A failed send does not stop the monitor: later events are still processed. */
  lemma MonitorPhaseContinues(filters: seq<Filter>, a: seq<Polled>, b: seq<Polled>)
    ensures MonitorPhase(filters, a + b) == MonitorPhase(filters, a) + MonitorPhase(filters, b)
  {
    FilterMapAppend((item: Polled) => MonitorItem(filters, item), a, b);
  }

  /** The three steps of monitor setup, each of which may fail. */
  datatype MonitorSetup = MonitorSetup(
    builder: Outcome<IoError>,          // `MonitorBuilder::new()`
    matchSubsystem: Outcome<IoError>,   // `match_subsystem(subsystem)`
    listen: Outcome<IoError>)           // `listen()`

  /**
   What the monitor thread sends on the rendezvous error channel before it
   drops the sender: the error of the first failing step, or nothing.
   */
  function ErrorReport(setup: MonitorSetup): (r: Option<IoError>)
    ensures r.None? <==> setup.builder.Pass? && setup.matchSubsystem.Pass? && setup.listen.Pass?
    ensures setup.builder.Fail? ==> r == Some(setup.builder.error)
    ensures setup.builder.Pass? && setup.matchSubsystem.Fail? ==> r == Some(setup.matchSubsystem.error)
    ensures setup.builder.Pass? && setup.matchSubsystem.Pass? && setup.listen.Fail?
            ==> r == Some(setup.listen.error)
  {
    match setup.builder
    case Fail(e) => Some(e)
    case Pass =>
      match setup.matchSubsystem
      case Fail(e) => Some(e)
      case Pass =>
        match setup.listen
        case Fail(e) => Some(e)
        case Pass => None
  }

  /** The two streams that feed the one output channel (see `Listen`). */
  datatype Streams = Streams(enumerated: seq<DevEvent>, monitored: seq<DevEvent>)

  /**
   `listen`: fails with the reported setup error, otherwise returns the
   channel fed by the enumeration thread and by the monitor thread. The two
   threads share one sender and are not ordered with respect to each other,
   so the model keeps their streams apart.
   */
  function Listen(filters: seq<Filter>, devices: seq<Device>, setup: MonitorSetup, polled: seq<Polled>)
    : (r: Result<Streams, IoError>)
    ensures r.Failure? <==> setup.builder.Fail? || setup.matchSubsystem.Fail? || setup.listen.Fail?
    ensures r.Failure? ==> ErrorReport(setup) == Some(r.error)
    ensures r.Success? ==> r.value == Streams(EnumerationPhase(filters, devices), MonitorPhase(filters, polled))
    ensures r.Success? ==> forall k :: 0 <= k < |r.value.enumerated| ==> r.value.enumerated[k].action == Add
    ensures r.Success? && |filters| == 0 ==> r.value.enumerated == [] && r.value.monitored == []
  {
    match ErrorReport(setup)
    case Some(e) => Failure(e)
    case None => Success(Streams(EnumerationPhase(filters, devices), MonitorPhase(filters, polled)))
  }
}
