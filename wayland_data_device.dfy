/**
 * The Wayland data device as the object it is: fields that the protocol
 * event handlers and the upward requests update in place. Every handler is
 * proved to perform exactly the transition `DataDeviceState` defines for
 * it, and to keep that module's invariant.
 */
module WaylandDataDevice {
  import opened Wrappers
  import S = DataDeviceState

  type MimeType = S.MimeType

  class DataDevice {
    /** The MIME types the device reads from a drop, richest first; fixed for its lifetime. */
    const priority: seq<MimeType>

    /** An announced offer whose role (drag or selection) is not known yet. */
    var newOffer: Option<S.Offer>
    /** The most recent clipboard selection, if any. */
    var selectionOffer: Option<S.Offer>
    /** The offer of a drag from another client in progress, if any. */
    var dragOffer: Option<S.Offer>
    /** The read to run once the display sync round trip completes. */
    var deferredRead: Option<S.PendingRead>
    var isHandlingDroppedData: bool
    var isLeaving: bool
    /** MIME types of the drop still to be read, in order. */
    var unprocessedMimeTypes: seq<MimeType>
    /** The aggregate of a drop being read. */
    var receivedData: Option<S.ExchangeData>
    /** The data of a drag this client started. */
    var sourceData: Option<S.ExchangeData>
    /** What has been handed to the connection, to callbacks and to the window. */
    var deliveries: seq<S.Delivery>

    function Abs(): S.State
      reads this
    {
      S.State(newOffer, selectionOffer, dragOffer, deferredRead, isHandlingDroppedData, isLeaving,
              unprocessedMimeTypes, receivedData, sourceData, deliveries)
    }

    ghost predicate Valid()
      reads this
    {
      S.Inv(Abs(), priority)
    }

    constructor (priority: seq<MimeType>)
      ensures this.priority == priority
      ensures Abs() == S.Initial && Valid()
    {
      this.priority := priority;
      newOffer, selectionOffer, dragOffer, deferredRead := None, None, None, None;
      isHandlingDroppedData, isLeaving := false, false;
      unprocessedMimeTypes, receivedData, sourceData, deliveries := [], None, None, [];
      S.InitialInv(priority);
    }

    // ----- Queries -----

    function IsDragEntered(): (r: bool)
      reads this
      ensures r <==> dragOffer.Some?
    {
      dragOffer.Some?
    }

    function IsDraggingExternalData(): (r: bool)
      reads this
      ensures r <==> sourceData.None?
    {
      sourceData.None?
    }

    /** The MIME types of the clipboard selection, none without one. */
    method GetAvailableMimeTypes() returns (mimeTypes: set<MimeType>)
      ensures mimeTypes == S.AvailableMimeTypes(Abs())
      ensures selectionOffer.None? ==> mimeTypes == {}
      ensures selectionOffer.Some? ==> mimeTypes == selectionOffer.value.mimeTypes
    {
      mimeTypes := if selectionOffer.Some? then selectionOffer.value.mimeTypes else {};
    }

    /**
     * Fills the peer's read of our outgoing drag: the bytes of `mimeType`
     * when a drag of ours holds that type, nothing otherwise.
     */
    method DeliverDragData(mimeType: MimeType) returns (delivered: bool, buffer: string)
      ensures (delivered, buffer) == S.DeliverDragData(Abs(), mimeType)
      ensures delivered <==> sourceData.Some? && mimeType in sourceData.value
      ensures delivered ==> buffer == sourceData.value[mimeType]
      ensures !delivered ==> buffer == ""
    {
      delivered, buffer := false, "";
      if sourceData.Some? && mimeType in sourceData.value {
        delivered, buffer := true, sourceData.value[mimeType];
      }
    }

    // ----- Upward requests -----

    /** Arms `read` to run when the display sync round trip completes. */
    method RegisterDeferredReadCallback(read: S.PendingRead)
      modifies this`deferredRead
      ensures deferredRead == Some(read)
    {
      deferredRead := Some(read);
    }

    method RequestSelectionData(mimeType: MimeType) returns (status: S.Status)
      requires Valid()
      modifies this
      ensures Valid()
      ensures S.Outcome(Abs(), status) == S.RequestSelectionData(old(Abs()), mimeType)
    {
      ghost var before := Abs();
      if selectionOffer.None? {
        return S.NoActiveOffer;
      }
      if deferredRead.Some? {
        return S.ReadInProgress;
      }
      RegisterDeferredReadCallback(S.PendingRead(mimeType, mimeType in selectionOffer.value.mimeTypes, S.ToClipboard));
      status := S.Ok;
      S.StepPreservesInv(before, S.RequestSelection(mimeType), priority);
    }

    /** Arms the read of `mimeType` from the drag offer for `target`. */
    method RequestDragRead(mimeType: MimeType, target: S.ReadTarget) returns (status: S.Status)
      modifies this
      ensures S.Outcome(Abs(), status) == S.RequestDragRead(old(Abs()), mimeType, target)
    {
      if dragOffer.None? {
        return S.NoActiveOffer;
      }
      if deferredRead.Some? {
        return S.ReadInProgress;
      }
      RegisterDeferredReadCallback(S.PendingRead(mimeType, mimeType in dragOffer.value.mimeTypes, target));
      status := S.Ok;
    }

    /** Reads `mimeType` of a drag from another client for the upward `callback`. */
    method RequestDragData(mimeType: MimeType, callback: nat) returns (status: S.Status)
      requires Valid()
      modifies this
      ensures Valid()
      ensures S.Outcome(Abs(), status) == S.RequestDragRead(old(Abs()), mimeType, S.ToDragCallback(callback))
    {
      ghost var before := Abs();
      status := RequestDragRead(mimeType, S.ToDragCallback(callback));
      S.StepPreservesInv(before, S.RequestDrag(mimeType, callback), priority);
    }

    method StartDrag(data: S.ExchangeData) returns (status: S.Status)
      requires Valid()
      modifies this
      ensures Valid()
      ensures S.Outcome(Abs(), status) == S.StartDrag(old(Abs()), data)
    {
      if sourceData.Some? || dragOffer.Some? {
        return S.DragInProgress;
      }
      sourceData := Some(data);
      status := S.Ok;
    }

    method ResetSourceData()
      requires Valid()
      modifies this
      ensures Valid()
      ensures Abs() == S.ResetSourceData(old(Abs()))
      ensures IsDraggingExternalData()
    {
      sourceData := None;
    }

    // ----- Compositor events -----

    method OnDataOffer(offer: S.Offer) returns (status: S.Status)
      requires Valid()
      modifies this
      ensures Valid()
      ensures S.Outcome(Abs(), status) == S.OnDataOffer(old(Abs()), offer)
    {
      if S.HoldsOffer(Abs(), offer.id) {
        return S.ProtocolViolation;
      }
      newOffer := Some(offer);
      status := S.Ok;
    }

    method OnEnter(offerId: nat) returns (status: S.Status)
      requires Valid()
      modifies this
      ensures Valid()
      ensures S.Outcome(Abs(), status) == S.OnEnter(old(Abs()), offerId, priority)
    {
      ghost var before := Abs();
      if newOffer.None? || newOffer.value.id != offerId || dragOffer.Some? {
        return S.ProtocolViolation;
      }
      unprocessedMimeTypes := S.Negotiate(priority, newOffer.value.mimeTypes);
      dragOffer := newOffer;
      newOffer := None;
      status := S.Ok;
      S.StepPreservesInv(before, S.EnterEvent(offerId), priority);
    }

    method OnSelection(selected: Option<nat>) returns (status: S.Status)
      requires Valid()
      modifies this
      ensures Valid()
      ensures S.Outcome(Abs(), status) == S.OnSelection(old(Abs()), selected)
    {
      ghost var before := Abs();
      if selected.None? {
        selectionOffer := None;
        return S.Ok;
      }
      if newOffer.None? || newOffer.value.id != selected.value {
        return S.ProtocolViolation;
      }
      selectionOffer := newOffer;
      newOffer := None;
      status := S.Ok;
      S.StepPreservesInv(before, S.SelectionEvent(selected), priority);
    }

    /**
     * The drag leaves. Also run for a deferred leave, from a state between
     * two steps, so it keeps the invariant only when it held before.
     */
    method OnLeave() returns (status: S.Status)
      modifies this
      ensures S.Outcome(Abs(), status) == S.OnLeave(old(Abs()))
      ensures old(Valid()) ==> Valid()
    {
      ghost var before := Abs();
      if dragOffer.None? {
        return S.ProtocolViolation;
      }
      if isHandlingDroppedData {
        isLeaving := true;
      } else {
        dragOffer := None;
        isHandlingDroppedData := false;
        isLeaving := false;
        deliveries := deliveries + [S.DragLeft];
      }
      status := S.Ok;
      if S.Inv(before, priority) {
        S.StepPreservesInv(before, S.LeaveEvent, priority);
      }
    }

    method HandleDeferredLeaveIfNeeded()
      modifies this
      ensures Abs() == S.HandleDeferredLeaveIfNeeded(old(Abs()))
    {
      if isLeaving {
        var _ := OnLeave();
      }
    }

    /** Hands the aggregate of the drop to the window and handles a deferred leave. */
    method HandleReceivedData()
      modifies this
      ensures Abs() == S.HandleReceivedData(old(Abs()))
    {
      deliveries := deliveries + [S.DropData(receivedData.GetOr(map[]))];
      unprocessedMimeTypes := [];
      receivedData := None;
      isHandlingDroppedData := false;
      HandleDeferredLeaveIfNeeded();
    }

    /**
     * Pops the queue up to and including the next interesting MIME type and
     * returns it, or returns the empty string with the queue emptied.
     */
    method SelectNextMimeType() returns (mimeType: MimeType)
      modifies this`unprocessedMimeTypes
      ensures var pick := S.NextMime(old(unprocessedMimeTypes), S.Received(Abs()));
              mimeType == pick.mimeType && unprocessedMimeTypes == pick.rest
    {
      var received := receivedData.GetOr(map[]);
      while unprocessedMimeTypes != []
        invariant S.NextMime(unprocessedMimeTypes, received) == S.NextMime(old(unprocessedMimeTypes), received)
        decreases |unprocessedMimeTypes|
      {
        var candidate := unprocessedMimeTypes[0];
        unprocessedMimeTypes := unprocessedMimeTypes[1..];
        if S.Interesting(candidate, received) {
          return candidate;
        }
      }
      return "";
    }

    /** Requests the next MIME type of the drop, or hands the aggregate over when none is left. */
    method HandleUnprocessedMimeTypes()
      modifies this
      ensures Abs() == S.HandleUnprocessedMimeTypes(old(Abs()))
    {
      var mimeType := SelectNextMimeType();
      if mimeType == "" {
        HandleReceivedData();
      } else {
        var _ := RequestDragRead(mimeType, S.ToNegotiation);
      }
    }

    method OnDragDataReceived(mimeType: MimeType, contents: string)
      modifies this
      ensures Abs() == S.OnDragDataReceived(old(Abs()), mimeType, contents)
    {
      if contents != "" && receivedData.Some? {
        receivedData := Some(receivedData.value[mimeType := contents]);
      }
      HandleUnprocessedMimeTypes();
    }

    method OnDrop() returns (status: S.Status)
      requires Valid()
      modifies this
      ensures Valid()
      ensures S.Outcome(Abs(), status) == S.OnDrop(old(Abs()))
    {
      ghost var before := Abs();
      if dragOffer.None? || isHandlingDroppedData {
        return S.ProtocolViolation;
      }
      if deferredRead.Some? {
        return S.ReadInProgress;
      }
      receivedData := Some(map[]);
      isHandlingDroppedData := true;
      HandleUnprocessedMimeTypes();
      status := S.Ok;
      S.StepPreservesInv(before, S.DropEvent, priority);
    }

    /**
     * The display sync round trip completed and the pipe yielded `contents`
     * (nothing, for a type the offer does not advertise): the deferred read
     * is cleared, then run.
     */
    method DeferredReadCallback(contents: string) returns (status: S.Status)
      requires Valid()
      modifies this
      ensures Valid()
      ensures S.Outcome(Abs(), status) == S.DeferredReadCallback(old(Abs()), contents)
    {
      ghost var before := Abs();
      if deferredRead.None? {
        return S.ProtocolViolation;
      }
      var read := deferredRead.value;
      var bytes := if read.advertised then contents else "";
      deferredRead := None;
      ghost var cleared := Abs();
      assert cleared == before.(deferredRead := None);
      match read.target {
        case ToClipboard =>
          deliveries := deliveries + [S.ClipboardData(read.mimeType, bytes)];
        case ToDragCallback(callback) =>
          deliveries := deliveries + [S.DragData(callback, bytes)];
        case ToNegotiation =>
          OnDragDataReceived(read.mimeType, bytes);
          assert Abs() == S.OnDragDataReceived(cleared, read.mimeType, bytes);
      }
      status := S.Ok;
      assert S.Outcome(Abs(), status) == S.DeferredReadCallback(before, contents);
      S.StepPreservesInv(before, S.SyncDone(contents), priority);
      assert S.Step(before, S.SyncDone(contents), priority).state == Abs();
    }

    /** One event, dispatched to its handler. */
    method Dispatch(e: S.Event) returns (status: S.Status)
      requires Valid()
      modifies this
      ensures Valid()
      ensures S.Outcome(Abs(), status) == S.Step(old(Abs()), e, priority)
    {
      match e
      case DataOfferEvent(offer) => status := OnDataOffer(offer);
      case EnterEvent(offerId) => status := OnEnter(offerId);
      case DropEvent => status := OnDrop();
      case LeaveEvent => status := OnLeave();
      case SelectionEvent(selected) => status := OnSelection(selected);
      case SyncDone(contents) => status := DeferredReadCallback(contents);
      case RequestSelection(mimeType) => status := RequestSelectionData(mimeType);
      case RequestDrag(mimeType, callback) => status := RequestDragData(mimeType, callback);
      case StartDragRequest(data) => status := StartDrag(data);
      case ResetSource => ResetSourceData(); status := S.Ok;
    }

    /** Handles `events` in order. */
    method Process(events: seq<S.Event>)
      requires Valid()
      modifies this
      ensures Valid()
      ensures Abs() == S.Run(old(Abs()), events, priority)
    {
      for i := 0 to |events|
        invariant Valid()
        invariant S.Run(Abs(), events[i..], priority) == S.Run(old(Abs()), events, priority)
      {
        assert events[i..][1..] == events[i + 1..];
        var _ := Dispatch(events[i]);
      }
    }
  }
}
