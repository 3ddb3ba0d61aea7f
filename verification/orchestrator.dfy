/**
 The glue of `src/main.rs`: configured selectors become listener filters,
 and every `Add` event coming out of the listener becomes one
 `add_source_dev(devname)` call on the proxy; other events change nothing,
 and a failed add is only logged.
 */
module Orchestrator {
  import opened Wrappers
  import opened HexFormat
  import opened UdevProps
  import opened Filters
  import opened Listener
  import opened ProxyDevice
  import opened SourceReader

  /** `config::DeviceSelector` as `main.rs` uses it. */
  datatype DeviceSelector =
    | UsbId(vendor: u16, model: u16)
    | UsbIdClass(vendor: u16, model: u16, hidClass: HidClass)

  /** `selector_by_config`. */
  function SelectorByConfig(s: DeviceSelector): (f: Filter)
    ensures WellFormed(f)
    ensures RendersId(f.vendor, s.vendor) && RendersId(f.model, s.model)
    ensures s.UsbId? <==> f.UsbIdFilter?
    ensures s.UsbIdClass? <==> f.UsbIdClassFilter?
    ensures s.UsbIdClass? ==> f.hidClass == s.hidClass
  {
    match s
    case UsbId(vendor, model) => NewUsbIdFilter(vendor, model)
    case UsbIdClass(vendor, model, hidClass) => NewUsbIdClassFilter(vendor, model, hidClass)
  }

  /** The filters added to the listener: a missing selector list counts as empty. */
  function FiltersFor(selectors: Option<seq<DeviceSelector>>): (fs: seq<Filter>)
    ensures selectors.None? ==> fs == []
    ensures selectors.Some? ==> |fs| == |selectors.value|
    ensures selectors.Some? ==>
      forall i :: 0 <= i < |fs| ==> fs[i] == SelectorByConfig(selectors.value[i])
  {
    match selectors
    case None => []
    case Some(ss) => seq(|ss|, i requires 0 <= i < |ss| => SelectorByConfig(ss[i]))
  }

  /** Property `key` holds four lower-case hex digits that spell `id`. */
  predicate IdProp(props: PropMap, key: string, id: u16) {
    key in props && props[key].Utf8? && RendersId(props[key].text, id)
  }

  /** What a selector means for a device, stated on numeric ids. */
  predicate SelectorAccepts(s: DeviceSelector, props: PropMap) {
    && IdProp(props, VendorKey, s.vendor)
    && IdProp(props, ModelKey, s.model)
    && (s.UsbIdClass? ==> HasText(props, ClassProp(s.hidClass), "1"))
  }

  /**
   A device matches the filter built from a selector exactly when its id
   properties are the selector's ids as four lower-case hex digits and, for
   a class selector, its class property is "1".
   */
  lemma SelectorFilterSemantics(s: DeviceSelector, props: PropMap)
    ensures MatchDevice(SelectorByConfig(s), Device(props)) <==> SelectorAccepts(s, props)
    ensures MatchEvent(SelectorByConfig(s), Event(props)) <==> SelectorAccepts(s, props)
  {
    var f := SelectorByConfig(s);
    if VendorKey in props && props[VendorKey].Utf8? {
      Format04xCharacterized(s.vendor, props[VendorKey].text);
      Format04xCharacterized(s.vendor, f.vendor);
    }
    if ModelKey in props && props[ModelKey].Utf8? {
      Format04xCharacterized(s.model, props[ModelKey].text);
      Format04xCharacterized(s.model, f.model);
    }
  }

  /** A listener built from no selectors admits no device at all. */
  lemma NoSelectorsAdmitNothing(devices: seq<Device>, setup: MonitorSetup, polled: seq<Polled>)
    ensures var r := Listen(FiltersFor(None), devices, setup, polled);
      r.Success? ==> r.value.enumerated == [] && r.value.monitored == []
  {
  }

  /** The `add_source_dev` argument for one listener event: only `Add` events have one. */
  function AddTarget(ev: DevEvent): (r: Option<string>)
    ensures r.Some? <==> ev.action == Add
    ensures r.Some? ==> r.value == ev.devname
  {
    if ev.action == Add then Some(ev.devname) else None
  }

  /** One listener event together with what the poller would do if asked to open it. */
  datatype Delivery = Delivery(ev: DevEvent, poller: Result<ChanId, IoError>)

  /** The registry update one event causes; a failed add leaves it as it was. */
  function DispatchOne(reg: Registry, d: Delivery): (r: Registry)
    ensures d.ev.action != Add ==> r == reg
    ensures d.poller.Failure? ==> r == reg
    ensures d.ev.action == Add && d.poller.Success? ==>
      r == reg + [Source(d.ev.devname, d.poller.value)]
  {
    match AddTarget(d.ev)
    case None => reg
    case Some(path) =>
      match AddSourceDev(reg, path, d.poller)
      case Failure(_) => reg
      case Success(reg') => reg'
  }

  /** The proxy thread's `for event in dev_ev_listener.iter()` loop, on the registry. */
  function DispatchAll(reg: Registry, ds: seq<Delivery>): (r: Registry)
    ensures reg <= r
    ensures |r| <= |reg| + |ds|
    decreases |ds|
  {
    if ds == [] then reg else DispatchAll(DispatchOne(reg, ds[0]), ds[1..])
  }

  /** The sources the events of `ds` register: one per `Add` whose poller started, in order. */
  function AddedSources(ds: seq<Delivery>): (r: Registry)
    ensures |r| <= |ds|
  {
    if ds == [] then []
    else
      var d := ds[0];
      (if d.ev.action == Add && d.poller.Success? then [Source(d.ev.devname, d.poller.value)] else [])
      + AddedSources(ds[1..])
  }

  /**
   Dispatching a stream appends, in stream order, one source per `Add` event
   whose reader started, named by the event's `devname`; `Remove` and
   unknown events and failed adds leave no trace, and processing continues.
   */
  lemma {:induction false} DispatchAllAppends(reg: Registry, ds: seq<Delivery>)
    ensures DispatchAll(reg, ds) == reg + AddedSources(ds)
    decreases |ds|
  {
    if ds != [] {
      DispatchAllAppends(DispatchOne(reg, ds[0]), ds[1..]);
    } else {
      assert reg + [] == reg;
    }
  }

  /** Every source a stream registers is named by the `devname` of one of its `Add` events. */
  lemma {:induction false} AddedSourcesComeFromAdds(ds: seq<Delivery>, k: nat)
    requires k < |AddedSources(ds)|
    ensures exists j ::
      0 <= j < |ds| && ds[j].ev.action == Add && AddedSources(ds)[k].path == ds[j].ev.devname
    decreases |ds|
  {
    var d := ds[0];
    if d.ev.action == Add && d.poller.Success? {
      if k > 0 {
        AddedSourcesComeFromAdds(ds[1..], k - 1);
        var j :| 0 <= j < |ds[1..]| && ds[1..][j].ev.action == Add
          && AddedSources(ds[1..])[k - 1].path == ds[1..][j].ev.devname;
        assert ds[j + 1] == ds[1..][j];
      } else {
        assert AddedSources(ds)[0] == Source(d.ev.devname, d.poller.value);
      }
    } else {
      AddedSourcesComeFromAdds(ds[1..], k);
      var j :| 0 <= j < |ds[1..]| && ds[1..][j].ev.action == Add
        && AddedSources(ds[1..])[k].path == ds[1..][j].ev.devname;
      assert ds[j + 1] == ds[1..][j];
    }
  }

  /** A stream without `Add` events leaves the registry unchanged. */
  lemma NoAddsNoChange(reg: Registry, ds: seq<Delivery>)
    requires forall j :: 0 <= j < |ds| ==> ds[j].ev.action != Add
    ensures DispatchAll(reg, ds) == reg
  {
    DispatchAllAppends(reg, ds);
    NoAddsNothingAdded(ds);
  }

  /** Without `Add` events no source is registered. */
  lemma {:induction false} NoAddsNothingAdded(ds: seq<Delivery>)
    requires forall j :: 0 <= j < |ds| ==> ds[j].ev.action != Add
    ensures AddedSources(ds) == []
    decreases |ds|
  {
    if ds != [] {
      NoAddsNothingAdded(ds[1..]);
    }
  }

  /**
   End to end, for a keyboard proxy with selector 046d:c52b: enumeration of a
   matching device at /dev/input/event3 yields one `Add` for that path; the
   add registers one source; after its reader sends an event and the loop
   reloads and rebuilds, that event is the next thing written, unchanged.
   */
  lemma HotplugScenario(ev: InputEvent, rx: ChanId)
    ensures var filters := FiltersFor(Some([UsbId(0x046d, 0xc52b)]));
      var dev := Device(map[DevNameKey := Utf8("/dev/input/event3"),
                            VendorKey := Utf8("046d"), ModelKey := Utf8("c52b")]);
      var evs := EnumerationPhase(filters, [dev]);
      && |evs| == 1 && evs[0].action == Add && evs[0].devname == "/dev/input/event3"
      && AddTarget(evs[0]) == Some("/dev/input/event3")
    ensures var p0 := NewProxy(Pass).value;
      var steps := [Rebuild, AddSource("/dev/input/event3", Success(rx)), ReaderSend(rx, ev),
                    Select(0, ReloadSignal), Rebuild, Select(0, SourceEvent(true))];
      var mid := Run(p0, steps[..2]);
      var end := Run(p0, steps);
      && mid.Some? && NumSources(mid.value.sources) == 1
      && end.Some? && end.value.snapshot == [Source("/dev/input/event3", rx)]
      && end.value.out == [ev]
  {
    var filters := FiltersFor(Some([UsbId(0x046d, 0xc52b)]));
    var dev := Device(map[DevNameKey := Utf8("/dev/input/event3"),
                          VendorKey := Utf8("046d"), ModelKey := Utf8("c52b")]);
    assert MatchDevice(filters[0], dev);
    assert ClassifyDevice(filters, dev).Some?;
    var steps := [Rebuild, AddSource("/dev/input/event3", Success(rx)), ReaderSend(rx, ev),
                  Select(0, ReloadSignal), Rebuild, Select(0, SourceEvent(true))];
    var p0 := NewProxy(Pass).value;
    var p1 := Next(p0, Rebuild);
    var p2 := Next(p1, AddSource("/dev/input/event3", Success(rx)));
    var p3 := Next(p2, ReaderSend(rx, ev));
    var p4 := Next(p3, Select(0, ReloadSignal));
    var p5 := Next(p4, Rebuild);
    var p6 := Next(p5, Select(0, SourceEvent(true)));
    assert Run(p2, []) == Some(p2);
    assert Run(p1, steps[1..2]) == Some(p2);
    assert Run(p0, steps[..2]) == Some(p2);
    assert Run(p6, []) == Some(p6);
    assert Run(p5, steps[5..]) == Some(p6);
    assert Run(p4, steps[4..]) == Some(p6);
    assert Run(p3, steps[3..]) == Some(p6);
    assert Run(p2, steps[2..]) == Some(p6);
    assert Run(p1, steps[1..]) == Some(p6);
  }
}
