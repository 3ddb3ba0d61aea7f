/**
 udev devices and events as property maps, and the property lookup of
 `src/udevdetect/mod.rs`: a missing or non-UTF-8 value reads as "".
 */
module UdevProps {
  import opened Wrappers

  /** A raw property value (`OsStr`): either valid UTF-8 text or not. */
  datatype OsValue = Utf8(text: string) | NotUtf8

  type PropMap = map<string, OsValue>

  /** A device found by enumeration (`udev::Device`). */
  datatype Device = Device(props: PropMap)

  /** A change notification from the monitor (`udev::Event`). */
  datatype Event = Event(props: PropMap)

  const VendorKey: string := "ID_VENDOR_ID"
  const ModelKey: string := "ID_MODEL_ID"
  const DevNameKey: string := "DEVNAME"
  const DevPathKey: string := "DEVPATH"
  const InputClassKey: string := ".INPUT_CLASS"
  const NameKey: string := "NAME"
  const ActionKey: string := "ACTION"

  /** `property_value(key)`: the raw value, if the key is present. */
  function PropertyValue(props: PropMap, key: string): Option<OsValue> {
    if key in props then Some(props[key]) else None
  }

  /** `OsStr::to_str`: the text of a valid UTF-8 value. */
  function ToStr(v: OsValue): Option<string> {
    match v
    case Utf8(t) => Some(t)
    case NotUtf8 => None
  }

  function UnwrapOr<T>(o: Option<T>, default: T): T {
    match o
    case Some(x) => x
    case None => default
  }

  /** True when `props` holds `key` with the UTF-8 text `s`. */
  predicate HasText(props: PropMap, key: string, s: string) {
    key in props && props[key] == Utf8(s)
  }

  function GetEventProperty(ev: Event, key: string): (r: string)
    ensures r != "" ==> HasText(ev.props, key, r)
    ensures key !in ev.props ==> r == ""
    ensures key in ev.props && ev.props[key].NotUtf8? ==> r == ""
    ensures HasText(ev.props, key, r) || r == ""
    ensures forall s :: HasText(ev.props, key, s) ==> r == s
  {
    UnwrapOr(ToStr(UnwrapOr(PropertyValue(ev.props, key), Utf8(""))), "")
  }

  function GetDeviceProperty(dev: Device, key: string): (r: string)
    ensures r != "" ==> HasText(dev.props, key, r)
    ensures key !in dev.props ==> r == ""
    ensures key in dev.props && dev.props[key].NotUtf8? ==> r == ""
    ensures HasText(dev.props, key, r) || r == ""
    ensures forall s :: HasText(dev.props, key, s) ==> r == s
  {
    UnwrapOr(ToStr(UnwrapOr(PropertyValue(dev.props, key), Utf8(""))), "")
  }

  /** Device lookup and event lookup are the same function of the property map. */
  lemma DeviceAndEventLookupAgree(props: PropMap, key: string)
    ensures GetDeviceProperty(Device(props), key) == GetEventProperty(Event(props), key)
  {
  }
}
