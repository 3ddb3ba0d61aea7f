# evdev-proxy hotplug core, modelled in Dafny

evdev-proxy creates virtual input devices (uinput) and feeds each one with the
raw events of every matching physical evdev device, following hotplug. This
project models the decision logic of that core as pure functions and one
state machine, and proves properties of it:

- **udev property lookup** (`UdevProps`): a device or event is a map from
  property names to raw values; a missing or non-UTF-8 value reads as `""`.
- **Device filters** (`Filters`, with the `{:04x}` rendering in `HexFormat`):
  the USB-id, dev-id and USB-id-plus-class filters as one closed datatype,
  with `MatchEvent` / `MatchDevice` dispatching over it.
- **Hotplug listener** (`Listener`): action decoding, the skip-nodeless /
  admit-if-any-filter-matches rule, the emitted record, the enumeration
  phase, the monitor phase and the one-shot setup-error report.
- **Source reader** (`SourceReader`): open + grab, then batches of at most
  128 events forwarded in order until the first read error or failed send.
- **Proxy device** (`ProxyDevice`): the `(path, channel)` registry with
  append-only add and first-match removal, and the event loop as a state
  machine over registry, snapshot, loop phase, queued reloads, the contents
  of every reader channel (what its reader sent, what the loop received,
  whether the sender is gone) and the output log. Select index `|snapshot|`
  is the reload channel; a source's event is the oldest one queued on its
  channel.
- **Orchestrator** (`Orchestrator`): selector-to-filter mapping and the rule
  that only `Add` events call `add_source_dev(devname)`.

Threads, udev, ioctls and the uinput device are replaced by inputs:
sequences of property maps, of polled monitor events, of read results, the
outcome of each setup step, and a flag saying whether a write succeeded.
Concurrency becomes a nondeterministic choice of the next `Step` of the
proxy (`ProxyDevice.Run`), including the reader threads' sends on their
channels and their exit.

Behaviour of the code worth noting:

- An empty filter list admits **no** device (`src/udevdetect/listener.rs:78-87`
  starts from `matched = false`).
- Id comparison is exact, case-sensitive string equality against the
  lower-case rendering (`src/udevdetect/filter_usbid.rs:22-27`): `"046D"`
  never matches.
- The enumeration phase and the monitor phase are sent from two different
  threads through clones of one sender (`src/udevdetect/listener.rs:120-124,136-220`);
  nothing orders one phase before the other, so `Listener.Listen` returns the
  two streams separately.
- The registry does not keep paths unique: `add_source_dev` appends without a
  duplicate check (`src/proxydev/device_simple.rs:118`), and eviction removes
  the first entry with the closed source's path, which need not be the
  closed source itself.
- The source files are not mutually consistent: `src/udevdetect/mod.rs:11-13`
  declares only the dev-id filter module while `src/main.rs:20,23` uses the
  USB-id and USB-id-class filters, and `src/config.rs` declares only the
  `USBID` selector. `src/proxydev/device_simple.rs:13,33-43` imports and
  calls `new_uinput_kbd`, `new_uinput_mouse` and `new_uinput_aio`, while
  `src/proxydev/uinput.rs` defines only `new_uinput_device`. Each file is
  modelled as written: all three filter kinds exist, the selector type is
  the one `main.rs` matches on, and creating the virtual device is an
  outcome that `NewProxy` receives.

## Model

| member | source | states |
|---|---|---|
| `HexFormat.Format04xShape` | src/udevdetect/filter_usbid.rs:13-14 | `{:04x}` of a `u16` is exactly four lower-case hex digits whose value is the id (padding never truncates) |
| `HexFormat.Format04xCharacterized` | src/udevdetect/filter_usbid.rs:11-15 | a string is the stored rendering of id `v` iff it is four lower-case hex digits worth `v`, so no string with an upper-case digit is ever a stored id |
| `HexFormat.Format04xInjective` | src/udevdetect/filter_usbid.rs:13-14 | two ids have the same rendering iff they are equal |
| `UdevProps.GetEventProperty` | src/udevdetect/mod.rs:15-17 | absent key gives `""`; a non-UTF-8 value gives `""`; a present UTF-8 value gives exactly its text; a non-empty result is always the stored text |
| `UdevProps.GetDeviceProperty` | src/udevdetect/mod.rs:19-21 | the same three cases for devices |
| `UdevProps.DeviceAndEventLookupAgree` | src/udevdetect/mod.rs:15-21 | device lookup and event lookup are the same function of the property map |
| `Filters.NewUsbIdFilter` | src/udevdetect/filter_usbid.rs:11-18 | stores vendor and model as four-digit lower-case hex renderings of the ids |
| `Filters.NewDevIdFilter` | src/udevdetect/filter_dev_id.rs:11-18 | stores vendor and model as four-digit lower-case hex renderings of the ids |
| `Filters.NewUsbIdClassFilter` | src/udevdetect/filter_usbidclass.rs:19-27 | stores the rendered ids and keeps the class |
| `Filters.ClassProp` | src/udevdetect/filter_usbidclass.rs:57-62 | `Keyboard` maps to `ID_INPUT_KEYBOARD` and `Mouse` to `ID_INPUT_MOUSE` (both directions), neither being an id key |
| `Filters.MatchEvent` | src/udevdetect/filter_usbidclass.rs:30-41 | for a constructed filter, true iff `ID_VENDOR_ID` and `ID_MODEL_ID` hold exactly the stored strings as UTF-8 and, for the class filter, the class property is exactly `"1"`; the USB-id and dev-id cases (filter_usbid.rs:21-29, filter_dev_id.rs:21-29) are the same without the class check |
| `Filters.MatchDevice` | src/udevdetect/filter_usbidclass.rs:43-54 | the same characterisation for devices (filter_usbid.rs:31-39, filter_dev_id.rs:31-39) |
| `Filters.MatchEventIsMatchDevice` | src/udevdetect/filter_usbid.rs:21-39 | `match_event` and `match_device` agree on every property map, for every filter kind |
| `Filters.DevIdFilterIsUsbIdFilter` | src/udevdetect/filter_dev_id.rs:20-40 | for the same ids the dev-id filter accepts exactly the maps the USB-id filter accepts |
| `Filters.ClassFilterRefinesIdFilter` | src/udevdetect/filter_usbidclass.rs:30-41 | a class-filter match is exactly an id-filter match plus class property `"1"`; so it implies the id match |
| `Filters.MissingIdNeverMatches` | src/udevdetect/filter_usbid.rs:22-27 | a map lacking `ID_VENDOR_ID` or `ID_MODEL_ID`, or holding non-UTF-8 there, is rejected by every constructed filter |
| `Filters.NonLowerHexIdRejected` | src/udevdetect/filter_usbid.rs:22-24 | comparison is case-sensitive: an id property with a character that is not a lower-case hex digit is rejected |
| `Filters.UpperCaseVendorExample` | src/udevdetect/filter_usbid.rs:13-27 | a USB-id filter storing the renderings of 046d:c52b accepts vendor `"046d"` and rejects `"046D"` |
| `Listener.ActionFrom` | src/udevdetect/listener.rs:27-37 | `"add"` ↦ `Add`, `"remove"` ↦ `Remove`, and every other string (e.g. `"Add"`, `""`) ↦ `Unknown`, each as an iff |
| `Listener.AdmissionIsAnyMatch` | src/udevdetect/listener.rs:78-87 | with constructed filters, admission means some filter accepts the map; with no filters nothing is admitted |
| `Listener.AnyFilterMatchesDevice` | src/udevdetect/listener.rs:78-87 | the `matched` loop over the filters is true iff some filter matches the device, hence false for an empty list |
| `Listener.AnyFilterMatchesEvent` | src/udevdetect/listener.rs:191-200 | the same loop for monitor events |
| `Listener.ClassifyDevice` | src/udevdetect/listener.rs:71-114 | a record is produced iff `DEVNAME` is non-empty and some filter matches; it is an `Add` and its six fields are the `DEVPATH`, `DEVNAME`, `.INPUT_CLASS`, `NAME`, `ID_VENDOR_ID`, `ID_MODEL_ID` properties |
| `Listener.ClassifyEvent` | src/udevdetect/listener.rs:177-211 | the same skip and filter rule for events; fields copied likewise; action is `Add` iff `ACTION` is `"add"` and `Remove` iff it is `"remove"` |
| `Listener.EnumerationPhase` | src/udevdetect/listener.rs:71-124 | every enumerated record is an `Add` with a non-empty device node and comes from some scanned device; nothing is emitted without filters |
| `Listener.EnumerationPhaseOrder` | src/udevdetect/listener.rs:71-114 | the records are those of the admitted devices in scan order: k-th record from the k-th admitted position, positions increasing, every admitted device present |
| `Listener.MonitorItem` | src/udevdetect/listener.rs:166-218 | one wake-up of the monitor loop delivers a record iff it received an event that passes the skip-and-filter rule and `send` succeeded, and that record is the classified event |
| `Listener.MonitorPhase` | src/udevdetect/listener.rs:166-219 | every delivered record has a non-empty device node and is the classified event of some received item whose send succeeded; at most one per polled item, none without filters |
| `Listener.MonitorPhaseOrder` | src/udevdetect/listener.rs:166-219 | the records are those of the received, admitted and delivered events in poll order: k-th record from the k-th delivered position, positions increasing, every such event present |
| `Listener.MonitorPhaseContinues` | src/udevdetect/listener.rs:213-218 | a failed send is skipped and the loop goes on: the monitor output over `a + b` is the output over `a` followed by that over `b` |
| `Listener.ErrorReport` | src/udevdetect/listener.rs:141-162 | the monitor thread reports an error iff one of the three setup steps fails, and it is the first failing step's error |
| `Listener.Listen` | src/udevdetect/listener.rs:116-230 | `listen` returns `Err` iff a setup step failed, with the reported error; otherwise it returns exactly the enumeration phase's and the monitor phase's streams, the first made only of `Add` records |
| `SourceReader.OpenAndGrab` | src/proxydev/evdev.rs:17-21 | an open or grab failure is returned (open first) and no reader starts |
| `SourceReader.ReadInto` | src/proxydev/evdev.rs:24-27 | after a read the buffer's first `res` entries are exactly the batch read |
| `SourceReader.SendBatch` | src/proxydev/evdev.rs:33-43 | forwards `events[..res]` in buffer order and stops at the first failed send, dropping the rest of the batch |
| `SourceReader.RunReader` | src/proxydev/evdev.rs:23-45 | over its lifetime the reader sends the in-order concatenation of the batches before the first read error (cut where the receiver disappears), and says why it stopped |
| `SourceReader.ForwardableAppend` | src/proxydev/evdev.rs:25-44 | the forwarded stream of `a + b` is that of `a`, followed by that of `b` only when `a` had no read error |
| `SourceReader.NothingAfterReadError` | src/proxydev/evdev.rs:28-31 | after a read error no further events are forwarded |
| `SourceReader.ForwardableBound` | src/proxydev/evdev.rs:24-26 | each read contributes at most 128 events |
| `ProxyDevice.NumSources` | src/proxydev/device_simple.rs:130-132 | the count of registered sources is zero exactly when no path is registered |
| `ProxyDevice.Position` | src/proxydev/device_simple.rs:141 | the first index holding the path, or none iff the path is absent |
| `ProxyDevice.RemoveDevFromList` | src/proxydev/device_simple.rs:139-145 | removes exactly the first entry with the path, keeping the others in order; an absent path leaves the list unchanged |
| `ProxyDevice.RemoveAbsentIsNoOp` | src/proxydev/device_simple.rs:141-142 | removing an unregistered path changes neither the registry nor `num_sources` |
| `ProxyDevice.RemoveKeepsOtherPaths` | src/proxydev/device_simple.rs:139-145 | entries of every other path are kept in order; of the removed path only the first entry goes |
| `ProxyDevice.AddSourceDev` | src/proxydev/device_simple.rs:113-122 | a poller failure is returned with the registry unchanged; otherwise `(path, rx)` is appended at the end and the length grows by one |
| `ProxyDevice.NewProxy` | src/proxydev/device_simple.rs:31-50 | the virtual device's error is returned as is; otherwise a new proxy has no sources, no readers, no output, an empty reload channel, is about to take its first snapshot, and satisfies the loop invariant |
| `ProxyDevice.Next` | src/proxydev/device_simple.rs:58-107 | every loop step leaves the output log a prefix of the new one, adding at most one event |
| `ProxyDevice.NextPreservesInv` | src/proxydev/device_simple.rs:58-121 | at most one reload is queued; while waiting the snapshot is an in-order prefix of the registry, and equals it when no reload is queued; every channel holds at most 64 queued events and the loop has received a prefix of what its reader sent; registered channels exist and are distinct |
| `ProxyDevice.RunPreservesInv` | src/proxydev/device_simple.rs:56-108 | every state reachable by any interleaving of steps keeps the invariant, and the output only grows |
| `ProxyDevice.EventForwardedUnmodified` | src/proxydev/device_simple.rs:89-105 | the event received from a source is the oldest one queued on its channel and is written unmodified; a failed write loses only that event, and no other channel, the registry and the loop phase are untouched |
| `ProxyDevice.ReceivedInSendOrder` | src/proxydev/device_simple.rs:79-97 | in every reachable state the events received from a channel are the first ones its reader sent, in send order, and no channel exceeds its capacity of 64 |
| `ProxyDevice.ReaderSendsArrive` | src/proxydev/evdev.rs:33-43 | while its channel is open and has room, a reader sending a stream (such as the one `SourceReader.RunReader` produces) appends exactly that stream to the channel, touching nothing else |
| `ProxyDevice.DrainedChannelStaysQuiet` | src/proxydev/device_simple.rs:90-96 | a closed and drained channel never changes again, whatever steps follow: nothing more is received or written from it |
| `ProxyDevice.ClosedSourceEvicted` | src/proxydev/device_simple.rs:89-96 | a source seen closed is still registered, so eviction shrinks the registry by exactly one and the loop rebuilds; after it the closed channel delivers nothing more, whatever steps follow |
| `ProxyDevice.ClosedFirstEntryEvicted` | src/proxydev/device_simple.rs:89-96 | when the closed entry is the first with its path, exactly that entry leaves the registry, and the rebuilt snapshot no longer waits on its channel |
| `ProxyDevice.AddedSourceBecomesVisible` | src/proxydev/device_simple.rs:114-121 | a successful add appends the source with a fresh, empty channel and queues exactly one reload, which the waiting loop can select |
| `ProxyDevice.AddBlocksOnQueuedReload` | src/proxydev/device_simple.rs:113-121 | a successful add can complete only when no reload is queued (the reload channel is `bounded(1)`, line 48, so the send blocks otherwise) and its channel is new |
| `ProxyDevice.SelectReadiness` | src/proxydev/device_simple.rs:71-97 | for a waiting loop, the reload operation is ready iff a reload is queued, a source's receive is ready iff its channel has a queued event, and its closure is reported iff the channel is empty and its sender gone |
| `ProxyDevice.StaleSnapshotHasReloadQueued` | src/proxydev/device_simple.rs:63-87 | whenever the loop waits on a snapshot that differs from the registry, the reload channel is ready, and reload plus rebuild waits on the whole registry |
| `ProxyDevice.EvictionScenario` | src/proxydev/device_simple.rs:89-96 | with two registered devices, the first one's closed and drained channel takes the count from 2 to 1, and the event queued on the second still reaches the output after the rebuild |
| `Orchestrator.SelectorByConfig` | src/main.rs:17-26 | `USBID` gives a USB-id filter and `USBIDClass` a class filter with the same class, both storing the renderings of the selector's ids |
| `Orchestrator.FiltersFor` | src/main.rs:64-68 | a missing selector list gives no filters; otherwise one filter per selector, in order |
| `Orchestrator.SelectorFilterSemantics` | src/main.rs:17-26 | a device matches a selector's filter iff its id properties spell the selector's ids as four lower-case hex digits and, for a class selector, its class property is `"1"` |
| `Orchestrator.NoSelectorsAdmitNothing` | src/main.rs:64-69 | a listener set up without selectors emits nothing in either phase |
| `Orchestrator.AddTarget` | src/main.rs:75-79 | an event names a device to add iff it is an `Add`, and then the device is its `devname` |
| `Orchestrator.DispatchOne` | src/main.rs:73-87 | only an `Add` event whose poller starts changes the registry, appending its `devname`; `Remove`, `Unknown` and failed adds change nothing |
| `Orchestrator.DispatchAll` | src/main.rs:73-87 | the dispatch loop over the listener's events only appends to the registry, at most one source per event; evictions by the proxy loop in between are not part of it |
| `Orchestrator.DispatchAllAppends` | src/main.rs:73-87 | over a whole event stream the dispatch loop appends one source per successful `Add`, in stream order, and goes on after failures |
| `Orchestrator.AddedSourcesComeFromAdds` | src/main.rs:75-79 | every source the stream registers is named by the `devname` of one of its `Add` events |
| `Orchestrator.NoAddsNoChange` | src/main.rs:75-86 | a stream of `Remove` and `Unknown` events leaves the registry unchanged |
| `Orchestrator.NoAddsNothingAdded` | src/main.rs:75 | a stream without `Add` events registers no source |
| `Orchestrator.HotplugScenario` | src/main.rs:56-87 | a keyboard proxy with selector 046d:c52b, a matching device at `/dev/input/event3`: one `Add` for that path, one registered source after the add, and once its reader sends an event and the loop reloads and rebuilds, that event is the next write, unchanged |

## Left out

- Listener.Listen: returns the enumeration stream and the monitor stream separately, because the code sends them from two unsynchronised threads and their interleaving on the shared channel is not determined.
- SourceReader.RunReader: the reader's lifetime is a finite sequence of read results; `StillReading` stands for a reader blocked on its next read.
- udev itself (enumerator, monitor builder, `ppoll`, `udevmon.next()`): replaced by a sequence of devices, the outcomes of the three setup steps and a sequence of polled items.
- `unwrap` panics (enumerator setup, the enumeration thread's `send(d).unwrap()` once `listen` has returned an error, `ppoll`): not modelled; the model has no panics.
- The listener's output channel (`DevListener::new("input", 32)` in `src/main.rs:64`): its capacity of 32 and the subsystem name are not modelled; the listener's output is its two streams, and the dispatch loop consumes a sequence of deliveries.
- ProxyDevice.Next: reader channels carry their contents, but the output log does not record which channel each written event came from; per-channel order is stated on what the loop receives (`ReceivedInSendOrder`), and a failed write drops the received event, so what is written from one channel is the received sequence minus the failed writes.
- Threads, the `Mutex` and crossbeam `Select` fairness: replaced by a nondeterministic choice of the next step; a successful add is one atomic step (push and reload send under the lock). Liveness, and the deadlock possible when `add_source_dev` blocks on a full reload channel while holding the lock that eviction needs, are not modelled.
- Mutex poisoning in `add_source_dev` (`src/proxydev/device_simple.rs:123-126`): cannot happen without panics, which are not modelled.
- Virtual device creation (the `new_uinput_kbd/mouse/aio` calls in `src/proxydev/device_simple.rs:33-43`, which `src/proxydev/uinput.rs` does not define): an input outcome of `NewProxy`; `dev_path` and the device name are not modelled. The uinput write is a success flag.
- Listener.Polled: whether each monitor `send` succeeded is chosen freely per item, so the model admits a failed send followed by a successful one; in the program a send fails only once the receiver is dropped, and every later send then fails as well. No proved property relies on the later sends succeeding.
- ProxyDevice.Channel: there is no "receiver dropped" state. After a source is evicted and the snapshot rebuilt, `ReaderSend` on its channel stays enabled, whereas in the program the reader's next send fails and the reader exits (`src/proxydev/evdev.rs:38-41`). This matters when duplicate paths make eviction remove an open source: its reader then dies, and the model lets it keep sending into a channel nobody reads.
- `src/config.rs`, command-line parsing, `RUST_LOG` handling, logging and thread joining in `src/main.rs`: external.
- The contents of `input_event` are never interpreted; events are opaque records passed through unchanged.
