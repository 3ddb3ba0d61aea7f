/**
 The device filters of `src/udevdetect/filter_usbid.rs`,
 `filter_dev_id.rs` and `filter_usbidclass.rs`. The `DevFilter` interface
 (`match_event`, `match_device`) becomes one closed datatype with one case
 per implementation.
 */
module Filters {
  import opened HexFormat
  import opened UdevProps

  /** `USBHIDClass`. */
  datatype HidClass = Keyboard | Mouse

  /** A filter keeps its ids as the strings the constructor rendered. */
  datatype Filter =
    | UsbIdFilter(vendor: string, model: string)
    | DevIdFilter(vendor: string, model: string)
    | UsbIdClassFilter(vendor: string, model: string, hidClass: HidClass)

  /** `s` is the four-digit lower-case hexadecimal rendering of `id`. */
  predicate RendersId(s: string, id: u16) {
    |s| == 4 && IsLowerHex(s) && ParseHex(s) == id as nat
  }

  /** What every constructor guarantees of the stored strings. */
  predicate WellFormed(f: Filter) {
    |f.vendor| == 4 && IsLowerHex(f.vendor) && |f.model| == 4 && IsLowerHex(f.model)
  }

  function RenderId(id: u16): (s: string)
    ensures RendersId(s, id)
  {
    Format04xShape(id);
    Format04x(id)
  }

  function NewUsbIdFilter(vendor: u16, model: u16): (f: Filter)
    ensures f.UsbIdFilter?
    ensures RendersId(f.vendor, vendor) && RendersId(f.model, model)
    ensures WellFormed(f)
  {
    UsbIdFilter(RenderId(vendor), RenderId(model))
  }

  function NewDevIdFilter(vendor: u16, model: u16): (f: Filter)
    ensures f.DevIdFilter?
    ensures RendersId(f.vendor, vendor) && RendersId(f.model, model)
    ensures WellFormed(f)
  {
    DevIdFilter(RenderId(vendor), RenderId(model))
  }

  function NewUsbIdClassFilter(vendor: u16, model: u16, hidClass: HidClass): (f: Filter)
    ensures f.UsbIdClassFilter? && f.hidClass == hidClass
    ensures RendersId(f.vendor, vendor) && RendersId(f.model, model)
    ensures WellFormed(f)
  {
    UsbIdClassFilter(RenderId(vendor), RenderId(model), hidClass)
  }

  /** `get_class_prop`: the udev property that flags the input class. */
  function ClassProp(c: HidClass): (p: string)
    ensures p == "ID_INPUT_KEYBOARD" <==> c == Keyboard
    ensures p == "ID_INPUT_MOUSE" <==> c == Mouse
    ensures p != VendorKey && p != ModelKey
  {
    match c
    case Keyboard => "ID_INPUT_KEYBOARD"
    case Mouse => "ID_INPUT_MOUSE"
  }

  /**
   What a filter accepts, stated on the raw property map: the id properties
   hold exactly the stored strings as UTF-8 text and, for the class filter,
   the class property is the text "1".
   */
  predicate Matches(f: Filter, props: PropMap) {
    && HasText(props, VendorKey, f.vendor)
    && HasText(props, ModelKey, f.model)
    && (f.UsbIdClassFilter? ==> HasText(props, ClassProp(f.hidClass), "1"))
  }

  /** `match_event`, dispatched over the implementations. */
  function MatchEvent(f: Filter, e: Event): (r: bool)
    ensures r ==> HasText(e.props, VendorKey, f.vendor) || f.vendor == ""
    ensures r ==> HasText(e.props, ModelKey, f.model) || f.model == ""
    ensures r && f.UsbIdClassFilter? ==> HasText(e.props, ClassProp(f.hidClass), "1")
    ensures WellFormed(f) ==> (r <==> Matches(f, e.props))
  {
    match f
    case UsbIdFilter(vendor, model) =>
      if GetEventProperty(e, VendorKey) != vendor then false
      else if GetEventProperty(e, ModelKey) != model then false
      else true
    case DevIdFilter(vendor, model) =>
      if GetEventProperty(e, VendorKey) != vendor then false
      else if GetEventProperty(e, ModelKey) != model then false
      else true
    case UsbIdClassFilter(vendor, model, hidClass) =>
      if GetEventProperty(e, VendorKey) != vendor then false
      else if GetEventProperty(e, ModelKey) != model then false
      else if GetEventProperty(e, ClassProp(hidClass)) != "1" then false
      else true
  }

  /** `match_device`, dispatched over the implementations. */
  function MatchDevice(f: Filter, d: Device): (r: bool)
    ensures r ==> HasText(d.props, VendorKey, f.vendor) || f.vendor == ""
    ensures r ==> HasText(d.props, ModelKey, f.model) || f.model == ""
    ensures r && f.UsbIdClassFilter? ==> HasText(d.props, ClassProp(f.hidClass), "1")
    ensures WellFormed(f) ==> (r <==> Matches(f, d.props))
  {
    match f
    case UsbIdFilter(vendor, model) =>
      if GetDeviceProperty(d, VendorKey) != vendor then false
      else if GetDeviceProperty(d, ModelKey) != model then false
      else true
    case DevIdFilter(vendor, model) =>
      if GetDeviceProperty(d, VendorKey) != vendor then false
      else if GetDeviceProperty(d, ModelKey) != model then false
      else true
    case UsbIdClassFilter(vendor, model, hidClass) =>
      if GetDeviceProperty(d, VendorKey) != vendor then false
      else if GetDeviceProperty(d, ModelKey) != model then false
      else if GetDeviceProperty(d, ClassProp(hidClass)) != "1" then false
      else true
  }

  /** `match_event` and `match_device` are the same predicate of the property map. */
  lemma MatchEventIsMatchDevice(f: Filter, props: PropMap)
    ensures MatchEvent(f, Event(props)) == MatchDevice(f, Device(props))
  {
  }

  /** For the same ids, the dev-id filter accepts exactly what the USB-id filter accepts. */
  lemma DevIdFilterIsUsbIdFilter(vendor: u16, model: u16, props: PropMap)
    ensures MatchDevice(NewDevIdFilter(vendor, model), Device(props))
        == MatchDevice(NewUsbIdFilter(vendor, model), Device(props))
    ensures MatchEvent(NewDevIdFilter(vendor, model), Event(props))
        == MatchEvent(NewUsbIdFilter(vendor, model), Event(props))
  {
  }

  /** A class-filter match implies the id-only match: the class filter refines it. */
  lemma ClassFilterRefinesIdFilter(vendor: u16, model: u16, hidClass: HidClass, props: PropMap)
    ensures MatchDevice(NewUsbIdClassFilter(vendor, model, hidClass), Device(props))
        ==> MatchDevice(NewUsbIdFilter(vendor, model), Device(props))
    ensures MatchDevice(NewUsbIdClassFilter(vendor, model, hidClass), Device(props))
        <==> MatchDevice(NewUsbIdFilter(vendor, model), Device(props))
             && HasText(props, ClassProp(hidClass), "1")
  {
  }

  /**
   A map lacking an id property, or holding a non-UTF-8 id, is rejected by
   every constructed filter: "" is never a four-digit id string.
   */
  lemma MissingIdNeverMatches(f: Filter, props: PropMap)
    requires WellFormed(f)
    requires VendorKey !in props || ModelKey !in props
             || props[VendorKey].NotUtf8? || props[ModelKey].NotUtf8?
    ensures !MatchDevice(f, Device(props)) && !MatchEvent(f, Event(props))
  {
  }

  /**
   Comparison is case-sensitive: an id property holding a character that is
   not a lower-case hexadecimal digit (such as "046D") is rejected.
   */
  lemma NonLowerHexIdRejected(f: Filter, props: PropMap, s: string)
    requires WellFormed(f)
    requires HasText(props, VendorKey, s) || HasText(props, ModelKey, s)
    requires !IsLowerHex(s)
    ensures !MatchDevice(f, Device(props)) && !MatchEvent(f, Event(props))
  {
  }

  lemma LowerHexExamples()
    ensures IsLowerHex("046d") && ParseHex("046d") == 0x046d
    ensures IsLowerHex("c52b") && ParseHex("c52b") == 0xc52b
  {
    assert "046d"[..3] == "046" && "046"[..2] == "04" && "04"[..1] == "0" && "0"[..0] == "";
    assert ParseHex("0") == 0 && ParseHex("04") == 4 && ParseHex("046") == 0x46;
    assert "c52b"[..3] == "c52" && "c52"[..2] == "c5" && "c5"[..1] == "c" && "c"[..0] == "";
    assert ParseHex("c") == 0xc && ParseHex("c5") == 0xc5 && ParseHex("c52") == 0xc52;
  }

  /** A USB-id filter for 046d:c52b accepts vendor "046d" but not "046D". */
  lemma UpperCaseVendorExample(f: Filter)
    requires f.UsbIdFilter? && RendersId(f.vendor, 0x046d) && RendersId(f.model, 0xc52b)
    ensures MatchDevice(f, Device(map[VendorKey := Utf8("046d"), ModelKey := Utf8("c52b")]))
    ensures !MatchDevice(f, Device(map[VendorKey := Utf8("046D"), ModelKey := Utf8("c52b")]))
  {
    LowerHexExamples();
    ParseHexInjective(f.vendor, "046d");
    ParseHexInjective(f.model, "c52b");
    var upper: string := "046D";
    assert !IsLowerHexChar(upper[3]);
    NonLowerHexIdRejected(f, map[VendorKey := Utf8(upper), ModelKey := Utf8("c52b")], upper);
  }
}
