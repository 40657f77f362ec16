# Chromium data-transfer, DevTools recording and WebUI registry models

This project models three small, single-threaded, stateful components of
the Chromium source tree and proves properties about them in Dafny.

1. **The Wayland data device** (`ui/ozone/platform/wayland/wayland_data_device.h`),
   the clipboard and drag-and-drop bookkeeping over `wl_data_device`.
   `DataDeviceState` (data_device_state.dfy) defines the device as a
   transition system over values: a freshly announced offer parked in
   `newOffer`, the `selectionOffer` and `dragOffer` slots, the deferred
   read that waits for a display sync round trip, the
   `isHandlingDroppedData`/`isLeaving` pair that defers a leave arriving
   while a drop is read, the queue of negotiated MIME types drained by
   `NextMime`, the aggregate being built, and the outgoing drag data.
   Offers are values (an identity and a set of MIME types). The compositor
   is a sequence of `Event`s. The bytes a pipe yields travel with the event
   that completes the sync round trip. Upward effects are appended to
   `deliveries`: clipboard data for the connection, drag data for a
   callback, the dropped aggregate for the window, and the drag leaving.
   The device's own MIME priority is a fixed sequence, `priority`. A drop's
   read queue is that sequence restricted to the advertised types.
   `WaylandDataDevice.DataDevice` (wayland_data_device.dfy) is the device as
   an object whose handlers update its fields in place. Each handler is
   proved to perform exactly its transition and to keep the invariant
   `DataDeviceState.Inv`.
2. **The DevTools background-services recording context**, as its unit
   tests (`content/browser/devtools/devtools_background_services_context_unittest.cc`)
   pin it down (devtools_background_services.dfy). `BrowserClient` is the
   test's map-backed expiration store. `Context` keeps per-service
   expiration times and reports recording while the time is set and in the
   future. It mirrors the times into the client and stores events only
   while recording, stamped by a forward-moving `Clock`, into an
   `EventStorage` that outlives a restart. It also records every observer
   call. Each TEST is a method that builds a fresh browser, performs the
   test's steps and returns what the test observes; its postcondition
   states the test's expectations.
3. **The iOS WebUI controller factory registry**
   (`ios/web/webui/web_ui_ios_controller_factory_registry.cc`,
   webui_registry.dfy). It is an append-only list of factories, each a
   pair of functions from URL to bool and to an optional controller. It
   has two early-exit searches in registration order, specified by the
   recursive functions `AnyHandles` and `FirstController`.

`Wrappers` (wrappers.dfy) holds the `Option` type used for null references
and null times.

## Modelling decisions

- Deferred leave: `OnLeave` during a drop's read only sets `isLeaving`
  (wayland_data_device.h:80-82). The aggregate is read to the end and
  handed to the window first. The leave is handled right after that, by
  `HandleDeferredLeaveIfNeeded`. The read is not abandoned.
- One deferred read at a time: the device has a single deferred-read
  closure (wayland_data_device.h:167-169). A read requested while one is
  armed returns `ReadInProgress` and changes nothing; so does a drop that
  arrives then.
- An enter is refused while a drag offer is still held. So is a drop while
  one is being read. A sync callback with nothing armed, and an enter or
  selection naming an offer other than the parked one, are refused too.
  These refusals are the model's own; the header states no such checks.
  Each returns `ProtocolViolation` and leaves the state unchanged. A
  refused event is discarded, not retried (see "Left out").
- A read of a MIME type the offer does not advertise is still armed and
  still waits for the sync round trip. It yields empty bytes, because the
  peer writes nothing for such a type. The pending read records, when it
  is armed, whether its offer advertises the type.
- Outgoing and incoming drags may coexist. When this client drags over its
  own window, `sourceData` is set while a drag offer is held, which is what
  `IsDraggingExternalData` (wayland_data_device.h:76-78) tells apart.
  `StartDrag` is refused while either drag is active.
- `isHandlingDroppedData` is set before the queue is first drained. This
  way a drop with nothing to read completes at once and leaves no stale
  flag behind.
- MIME types: a type is read only if it is non-empty and not yet received.
  Empty bytes from a pipe are not stored.

## Model

| member | source | states |
|---|---|---|
| `WaylandDataDevice.DataDevice.constructor` | ui/ozone/platform/wayland/wayland_data_device.h:39 | a new device holds no offers, no deferred read, no queue and no source data, and satisfies the invariant |
| `WaylandDataDevice.DataDevice.IsDragEntered` | ui/ozone/platform/wayland/wayland_data_device.h:64 | true exactly when a drag offer is held |
| `WaylandDataDevice.DataDevice.IsDraggingExternalData` | ui/ozone/platform/wayland/wayland_data_device.h:76-78 | true exactly when no outgoing drag data is held |
| `WaylandDataDevice.DataDevice.ResetSourceData` | ui/ozone/platform/wayland/wayland_data_device.h:57-58 | clears only the outgoing data; afterwards the device regards any drag as external |
| `WaylandDataDevice.DataDevice.GetAvailableMimeTypes` | ui/ozone/platform/wayland/wayland_data_device.h:60 | the selection offer's MIME types, empty without a selection |
| `WaylandDataDevice.DataDevice.DeliverDragData` | ui/ozone/platform/wayland/wayland_data_device.h:49-52 | delivers iff our outgoing drag holds the type, and then exactly its bytes; otherwise the buffer stays empty |
| `WaylandDataDevice.DataDevice.StartDrag` | ui/ozone/platform/wayland/wayland_data_device.h:53-56 | stores the outgoing data unless a drag of either direction is active |
| `WaylandDataDevice.DataDevice.RequestSelectionData` | ui/ozone/platform/wayland/wayland_data_device.h:42 | arms a clipboard read of the type, noting whether the selection advertises it, when a selection exists and no read is armed; otherwise reports why and changes nothing |
| `WaylandDataDevice.DataDevice.RequestDragData` | ui/ozone/platform/wayland/wayland_data_device.h:44-48 | arms a read of the drag offer for the caller's callback under the same conditions |
| `WaylandDataDevice.DataDevice.RequestDragRead` | ui/ozone/platform/wayland/wayland_data_device.h:44-48 | the shared drag-read path, used by the negotiation and by upward requests |
| `WaylandDataDevice.DataDevice.RegisterDeferredReadCallback` | ui/ozone/platform/wayland/wayland_data_device.h:115-119 | the read is armed to wait for the sync round trip, nothing else changes |
| `WaylandDataDevice.DataDevice.DeferredReadCallback` | ui/ozone/platform/wayland/wayland_data_device.h:120-122 | clears the armed read and then runs it once with the pipe's bytes, or with none for an unadvertised type; with none armed nothing happens |
| `WaylandDataDevice.DataDevice.OnDataOffer` | ui/ozone/platform/wayland/wayland_data_device.h:150-155 | a new offer is parked in `newOffer` until classified; an identity already in use is refused |
| `WaylandDataDevice.DataDevice.OnEnter` | ui/ozone/platform/wayland/wayland_data_device.h:89-95 | the parked offer moves into the drag slot and its negotiated types are queued |
| `WaylandDataDevice.DataDevice.OnSelection` | ui/ozone/platform/wayland/wayland_data_device.h:107-113 | the parked offer replaces the selection offer; a null offer empties the selection |
| `WaylandDataDevice.DataDevice.OnLeave` | ui/ozone/platform/wayland/wayland_data_device.h:105 | during a drop's read only records the leave; otherwise drops the drag offer and reports that the drag left |
| `WaylandDataDevice.DataDevice.HandleDeferredLeaveIfNeeded` | ui/ozone/platform/wayland/wayland_data_device.h:80-82 | handles a recorded leave, and does nothing when none was recorded |
| `WaylandDataDevice.DataDevice.OnDrop` | ui/ozone/platform/wayland/wayland_data_device.h:103 | starts building the aggregate, marks the drop as being read and requests the first MIME type |
| `WaylandDataDevice.DataDevice.OnDragDataReceived` | ui/ozone/platform/wayland/wayland_data_device.h:127 | keeps non-empty bytes under their type and moves the queue on |
| `WaylandDataDevice.DataDevice.HandleUnprocessedMimeTypes` | ui/ozone/platform/wayland/wayland_data_device.h:129-134 | requests the next interesting type, or delivers the aggregate once none is left |
| `WaylandDataDevice.DataDevice.HandleReceivedData` | ui/ozone/platform/wayland/wayland_data_device.h:135 | hands the aggregate to the window, clears the queue and the drop flags, then handles a deferred leave |
| `WaylandDataDevice.DataDevice.SelectNextMimeType` | ui/ozone/platform/wayland/wayland_data_device.h:136-138 | pops the queue up to the next interesting type and returns it; returns the empty string with the queue emptied when none is left |
| `WaylandDataDevice.DataDevice.Dispatch` | ui/ozone/platform/wayland/wayland_data_device.h:84-113 | each event reaches its handler and the invariant is kept |
| `WaylandDataDevice.DataDevice.Process` | ui/ozone/platform/wayland/wayland_data_device.h:84-113 | a sequence of events is handled in order, as `Run` defines |
| `DataDeviceState.Negotiate` | ui/ozone/platform/wayland/wayland_data_device.h:129-133 | the queued types are exactly those both wanted and advertised, kept in the priority's order (a subsequence of the priority) |
| `DataDeviceState.NegotiatedReadOrder` | ui/ozone/platform/wayland/wayland_data_device.h:129-138 | from a negotiated queue the next type read is the first wanted, advertised type of the priority still to arrive, and the queue left is the negotiation of what follows it; nothing is read iff no such type exists |
| `DataDeviceState.NextMime` | ui/ozone/platform/wayland/wayland_data_device.h:136-138 | the first interesting type of the queue, with only uninteresting types before it, and the queue after it; empty iff none is interesting; the queue shrinks |
| `DataDeviceState.HandleUnprocessedMimeTypesEffect` | ui/ozone/platform/wayland/wayland_data_device.h:129-135 | the aggregate is delivered iff no interesting type is left in the queue, and the queue is then empty; otherwise exactly the next type's read is deferred and nothing is delivered |
| `DataDeviceState.StepPreservesInv` | ui/ozone/platform/wayland/wayland_data_device.h:150-172 | every event keeps the slots distinct, the leave flag within the drop read, and the queue and data to negotiated types |
| `DataDeviceState.RunPreservesInv` | ui/ozone/platform/wayland/wayland_data_device.h:150-172 | the invariant holds after any event sequence |
| `DataDeviceState.RunOnlyAppendsDeliveries` | ui/ozone/platform/wayland/wayland_data_device.h:146-148 | what was handed upward is never withdrawn |
| `DataDeviceState.EnterClassifiesParkedOffer` | ui/ozone/platform/wayland/wayland_data_device.h:150-163 | an enter moves the parked offer into the drag slot only, never into both slots, and queues exactly its negotiated types |
| `DataDeviceState.SelectionReplacesPrevious` | ui/ozone/platform/wayland/wayland_data_device.h:157-159 | the selection offer becomes the most recent selection, whose types are then the available ones; the drag slot is untouched |
| `DataDeviceState.LeaveDuringReadIsDeferred` | ui/ozone/platform/wayland/wayland_data_device.h:80-82 | a leave during a drop's read keeps the drag offer and the read and delivers nothing |
| `DataDeviceState.DropReadsInPriorityOrder` | ui/ozone/platform/wayland/wayland_data_device.h:129-134 | a drop's reads follow the priority: each step arms the first advertised wanted type still to arrive and queues the negotiation of the rest, and the read ends iff none is left |
| `DataDeviceState.DropReadKeepsBytes` | ui/ozone/platform/wayland/wayland_data_device.h:127 | the bytes a negotiated read yields are stored under its type, earlier types kept, in the aggregate being built or the one delivered; empty bytes change nothing |
| `DataDeviceState.SelectionReadDelivers` | ui/ozone/platform/wayland/wayland_data_device.h:42 | requesting a selection type then completing the sync round trip hands the connection exactly the peer's bytes (none for an unadvertised type) and changes nothing else |
| `DataDeviceState.DragReadDelivers` | ui/ozone/platform/wayland/wayland_data_device.h:44-48 | requesting drag data then completing the sync round trip calls the callback once with exactly the peer's bytes (none for an unadvertised type) and changes nothing else |
| `DataDeviceState.DropReadOrdering` | ui/ozone/platform/wayland/wayland_data_device.h:171-172 | during a drop's read nothing is delivered and the drag offer stays until the aggregate is complete; then the aggregate comes first, with negotiated types only, and a deferred leave right after |
| `DataDeviceState.DeferredReadRunsOnce` | ui/ozone/platform/wayland/wayland_data_device.h:167-169 | a clipboard or callback read delivers exactly `ClipboardData(type, bytes)` or `DragData(callback, bytes)` once and is cleared, nothing else changing; a second sync callback runs nothing |
| `DataDeviceState.NoReadWithoutRequest` | ui/ozone/platform/wayland/wayland_data_device.h:115-122 | a sync callback with no read armed changes nothing |
| `DataDeviceState.ResetSourceDataClearsOutgoing` | ui/ozone/platform/wayland/wayland_data_device.h:186-188 | after a reset no source data is held, drags are external, the peer gets nothing, and resetting again changes nothing |
| `DataDeviceState.StartDragDelivers` | ui/ozone/platform/wayland/wayland_data_device.h:53-56 | a started drag answers reads from its own data only, and a second start is refused |
| `DataDeviceState.ExampleEnter` | ui/ozone/platform/wayland/wayland_data_device.h:150-155 | an offer of text/plain and text/html is queued as text/html, text/plain under the example priority |
| `DataDeviceState.ExampleDrop` | ui/ozone/platform/wayland/wayland_data_device.h:129-134 | the drop defers the read of text/html first |
| `DataDeviceState.ExampleFirstRead` | ui/ozone/platform/wayland/wayland_data_device.h:127 | the first bytes are kept and text/plain is read next, with or without a deferred leave |
| `DataDeviceState.ExampleSecondRead` | ui/ozone/platform/wayland/wayland_data_device.h:171-172 | the complete aggregate is delivered, followed by the leave when one was deferred |
| `DataDeviceState.ClipboardExample` | ui/ozone/platform/wayland/wayland_data_device.h:42 | a selection offering text/plain whose pipe yields "hello" delivers "hello" to the clipboard |
| `DevToolsBackgroundServices.BrowserClient.UpdateDevToolsBackgroundServiceExpiration` | content/browser/devtools/devtools_background_services_context_unittest.cc:35-40 | overwrites only that service's entry |
| `DevToolsBackgroundServices.BrowserClient.GetDevToolsBackgroundServiceExpirations` | content/browser/devtools/devtools_background_services_context_unittest.cc:42-45 | returns the whole map |
| `DevToolsBackgroundServices.Context.constructor` | content/browser/devtools/devtools_background_services_context_unittest.cc:119-127 | a new context takes over the client's expiration times |
| `DevToolsBackgroundServices.Context.ExpirationTime` | content/browser/devtools/devtools_background_services_context_unittest.cc:141-144 | the stored expiration time of the service, null when none was ever set |
| `DevToolsBackgroundServices.Context.IsRecording` | content/browser/devtools/devtools_background_services_context_unittest.cc:136-139 | a null expiration never records; a set one records exactly while the clock is before it |
| `DevToolsBackgroundServices.Context.StartRecording` | content/browser/devtools/devtools_background_services_context_unittest.cc:167-177 | sets a future expiration here and in the client, tells observers, and the service is recording |
| `DevToolsBackgroundServices.Context.StopRecording` | content/browser/devtools/devtools_background_services_context_unittest.cc:179-190 | nulls the expiration here and in the client, tells observers, and the service is not recording |
| `DevToolsBackgroundServices.Context.LogBackgroundServiceEvent` | content/browser/devtools/devtools_background_services_context_unittest.cc:160-165 | while recording, appends the event stamped with the clock and notifies observers; otherwise changes nothing |
| `DevToolsBackgroundServices.Context.GetLoggedBackgroundServiceEvents` | content/browser/devtools/devtools_background_services_context_unittest.cc:146-158 | the stored events of the service, chronological and not after the clock |
| `DevToolsBackgroundServices.Context.ClearLoggedBackgroundServiceEvents` | content/browser/devtools/devtools_background_services_context_unittest.cc:192-195 | empties that service's log only |
| `DevToolsBackgroundServices.NewBrowser` | content/browser/devtools/devtools_background_services_context_unittest.cc:98-108 | a fresh client, storage and context with nothing recorded |
| `DevToolsBackgroundServices.SimulateBrowserRestart` | content/browser/devtools/devtools_background_services_context_unittest.cc:119-127 | a new context over the same client and storage, loaded with the client's expirations |
| `DevToolsBackgroundServices.NothingStoredWithRecordingModeOff` | content/browser/devtools/devtools_background_services_context_unittest.cc:257-268 | logging with recording off leaves the log empty |
| `DevToolsBackgroundServices.GetLoggedEvents` | content/browser/devtools/devtools_background_services_context_unittest.cc:270-296 | two events come back in logging order with their fields and metadata intact and non-decreasing timestamps |
| `DevToolsBackgroundServices.StopRecordingKeepsEarlierEvents` | content/browser/devtools/devtools_background_services_context_unittest.cc:298-310 | the event logged before stopping stays, the one after is ignored |
| `DevToolsBackgroundServices.DelegateExpirationTimes` | content/browser/devtools/devtools_background_services_context_unittest.cc:312-334 | the expiration is null, then set and recording (also after a restart), then null and not recording (also after a restart) |
| `DevToolsBackgroundServices.RecordingExpiration` | content/browser/devtools/devtools_background_services_context_unittest.cc:336-347 | an expiration a week in the past is non-null yet not recording |
| `DevToolsBackgroundServices.ClearLoggedEvents` | content/browser/devtools/devtools_background_services_context_unittest.cc:349-365 | clearing empties a log of two events |
| `DevToolsBackgroundServices.EventObserverCalled` | content/browser/devtools/devtools_background_services_context_unittest.cc:367-381 | observers receive no event while recording is off and exactly the logged one while it is on |
| `WebUIRegistry.AnyHandles` | ios/web/webui/web_ui_ios_controller_factory_registry.cc:35-42 | true iff some registered factory serves the URL |
| `WebUIRegistry.FirstController` | ios/web/webui/web_ui_ios_controller_factory_registry.cc:44-54 | null iff every factory returns null; otherwise the controller of the first factory that builds one, all earlier ones returning null |
| `WebUIRegistry.AnyHandlesAppend` | ios/web/webui/web_ui_ios_controller_factory_registry.cc:24-42 | registering a factory adds its answer to the earlier ones' |
| `WebUIRegistry.FirstControllerAppend` | ios/web/webui/web_ui_ios_controller_factory_registry.cc:44-54 | later factories matter only when every earlier one returns null |
| `WebUIRegistry.FactoryRegistry.constructor` | ios/web/webui/web_ui_ios_controller_factory_registry.cc:56-57 | with no factories, no URL is served and no controller is built |
| `WebUIRegistry.FactoryRegistry.RegisterFactory` | ios/web/webui/web_ui_ios_controller_factory_registry.cc:24-27 | appends at the end; earlier factories keep their positions |
| `WebUIRegistry.FactoryRegistry.HasWebUIIOSControllerForURL` | ios/web/webui/web_ui_ios_controller_factory_registry.cc:35-42 | true iff some factory serves the URL; the list is not changed |
| `WebUIRegistry.FactoryRegistry.CreateWebUIIOSControllerForURL` | ios/web/webui/web_ui_ios_controller_factory_registry.cc:44-54 | the first non-null controller in registration order, with no later factory consulted; null iff all return null; the list is not changed |

## Left out

- Wayland: reading pipes (`ReadDataFromFD`, `ReadClipboardDataFromFD`, `ReadDragDataFromFD`) is operating-system I/O. The bytes a read yields are a parameter of the sync-done event (empty for a type the offer does not advertise), and a pipe that cannot be opened is not modelled.
- WaylandDataDevice.DataDevice.OnDrop: a drop that arrives while an upward read is armed gets `ReadInProgress` and is discarded. It is not queued until that read completes, so that drag's data never reaches the window. The device keeps a single deferred-read slot and the model does not add a second one.
- WaylandDataDevice.DataDevice.OnEnter: an enter for a new offer that arrives while a drag offer is still held is refused and discarded. This includes a drop still being read with its leave deferred. The new drag is never entered and its offer stays parked until the next enter or selection. The model has one drag slot and does not overlap two incoming drags.
- Wayland: drag icons and shared-memory buffers (`CreateSHMBuffer`, `CreateDragImage`) are rendering.
- Wayland: `OnMotion` and the `wl_fixed_t` coordinates, the focused window, `SetOperation` and the drag actions are not modelled. Neither are the accept/finish requests to the offer.
- Wayland: the wire encoding, `wl_data_source`, the connection's flushes and the clipboard sequence number are not modelled.
- Wayland: the header states no error handling for an out-of-order compositor event. The refusals the model makes (a reused offer identity, an enter or selection naming another offer, a leave without a drag offer, a sync callback with nothing armed, a drop while one is read) are its own. Each is reported as a status and leaves the state unchanged; what the connection does about such an event is not modelled.
- WaylandDataDevice.DataDevice.GetAvailableMimeTypes: returns a set, because offers are modelled with a set of MIME types; the vector's order is not modelled.
- DevTools: service-worker registration, `RunLoop` and thread-bundle plumbing, and gmock expectations are not modelled. Asynchronous retrieval is a synchronous call.
- DevTools: the recording window's real length is not part of this model; `RecordingDuration` is a positive constant. Protocol-buffer encoding of stored events is not modelled either.
- Registry: the `GetInstance`/`NoDestructor` process-wide singletons are replaced by an explicit `FactoryRegistry` object. Controller ownership is not modelled; a controller is an identity.
- The other files of the surrounding tree (Mojo and IPC forwarding, GL and OpenCL code, UI controllers, test fakes) are not part of this model.
