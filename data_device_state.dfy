/**
 * The clipboard and drag-and-drop bookkeeping of the Wayland data device
 * (`wl_data_device`), as a transition system over values.
 *
 * Offers are values: a protocol identity and the set of MIME types the peer
 * advertises. The compositor is a sequence of events; the bytes a pipe
 * yields are carried by the event that completes the display sync round
 * trip. Upward effects (clipboard contents handed to the connection, drag
 * data handed to a callback, the dropped aggregate handed to the window,
 * the drag leaving the window) are appended to `deliveries`.
 *
 * `WaylandDataDevice.DataDevice` is the imperative device; each of its
 * handlers is proved to perform exactly the transition defined here.
 */
module DataDeviceState {
  import opened Wrappers

  type MimeType = string

  /** The data a drop or a read hands upward: received bytes per MIME type. */
  type ExchangeData = map<MimeType, string>

  /** A `wl_data_offer`: its protocol identity and the MIME types on offer. */
  datatype Offer = Offer(id: nat, mimeTypes: set<MimeType>)

  /** Who gets the bytes of a deferred read once the pipe has been read. */
  datatype ReadTarget =
    | ToClipboard                    // clipboard data for the connection
    | ToDragCallback(callback: nat)  // the callback of an upward drag-data request
    | ToNegotiation                  // the next step of reading a drop's MIME types

  /**
   * The deferred read closure: the MIME type whose pipe is read, whether the
   * offer read from advertises that type, and for whom. A peer writes
   * nothing to the pipe of a type it did not advertise.
   */
  datatype PendingRead = PendingRead(mimeType: MimeType, advertised: bool, target: ReadTarget)

  /** An effect the device has on the layers above it, in order. */
  datatype Delivery =
    | ClipboardData(mimeType: MimeType, contents: string)
    | DragData(callback: nat, contents: string)
    | DropData(data: ExchangeData)
    | DragLeft

  /**
   * How a handler ended. Anything but `Ok` leaves the state as it was:
   * `ProtocolViolation` is an event the device state says cannot come now,
   * `NoActiveOffer` a request with no offer to serve it, `ReadInProgress` a
   * read requested while another is deferred, `DragInProgress` a drag
   * started while one is active.
   */
  datatype Status = Ok | NoActiveOffer | ReadInProgress | DragInProgress | ProtocolViolation

  datatype State = State(
    newOffer: Option<Offer>,
    selectionOffer: Option<Offer>,
    dragOffer: Option<Offer>,
    deferredRead: Option<PendingRead>,
    isHandlingDroppedData: bool,
    isLeaving: bool,
    unprocessedMimeTypes: seq<MimeType>,
    receivedData: Option<ExchangeData>,
    sourceData: Option<ExchangeData>,
    deliveries: seq<Delivery>)

  datatype Outcome = Outcome(state: State, status: Status)

  const Initial: State := State(None, None, None, None, false, false, [], None, None, [])

  /** Everything that can happen to the device. */
  datatype Event =
    // From the compositor: the `wl_data_device` events and the display sync callback.
    | DataOfferEvent(offer: Offer)
    | EnterEvent(offerId: nat)
    | DropEvent
    | LeaveEvent
    | SelectionEvent(selected: Option<nat>)
    | SyncDone(contents: string)
    // From the layers above.
    | RequestSelection(mimeType: MimeType)
    | RequestDrag(mimeType: MimeType, callback: nat)
    | StartDragRequest(data: ExchangeData)
    | ResetSource

  // ----- MIME negotiation -----

  /** `idx` places each element of `sub` at a position of `full`, positions strictly increasing. */
  ghost predicate EmbedsAt(sub: seq<MimeType>, full: seq<MimeType>, idx: seq<int>) {
    && |idx| == |sub|
    && (forall i :: 0 <= i < |idx| ==> 0 <= idx[i] < |full| && sub[i] == full[idx[i]])
    && (forall i, j :: 0 <= i < j < |idx| ==> idx[i] < idx[j])
  }

  /** `sub` is `full` with some elements left out, the rest in their order. */
  ghost predicate SubsequenceOf(sub: seq<MimeType>, full: seq<MimeType>) {
    exists idx :: EmbedsAt(sub, full, idx)
  }

  /** A subsequence of the tail of `full` is one of `full`, with or without its head. */
  lemma SubsequenceCons(sub: seq<MimeType>, full: seq<MimeType>)
    requires full != [] && SubsequenceOf(sub, full[1..])
    ensures SubsequenceOf(sub, full) && SubsequenceOf([full[0]] + sub, full)
  {
    var idx :| EmbedsAt(sub, full[1..], idx);
    var shifted := seq(|idx|, i requires 0 <= i < |idx| => idx[i] + 1);
    assert EmbedsAt(sub, full, shifted);
    assert EmbedsAt([full[0]] + sub, full, [0] + shifted);
  }

  /**
   * The read queue for an offer: the MIME types the device wants, in its
   * fixed `priority` order, that the peer advertises.
   */
  function Negotiate(priority: seq<MimeType>, advertised: set<MimeType>): (queue: seq<MimeType>)
    ensures forall m :: m in queue <==> m in priority && m in advertised
    ensures SubsequenceOf(queue, priority)
    ensures |queue| <= |priority|
  {
    if priority == [] then
      assert EmbedsAt([], priority, []);
      []
    else
      var rest := Negotiate(priority[1..], advertised);
      SubsequenceCons(rest, priority);
      if priority[0] in advertised then [priority[0]] + rest else rest
  }

  /** A MIME type still worth reading: a real type whose data has not arrived yet. */
  predicate Interesting(mimeType: MimeType, received: ExchangeData) {
    mimeType != "" && mimeType !in received
  }

  /** The MIME type chosen next and the queue left behind it. */
  datatype Pick = Pick(mimeType: MimeType, rest: seq<MimeType>)

  /** `queue[k]` is the first interesting MIME type of `queue`. */
  ghost predicate FirstInterestingAt(queue: seq<MimeType>, received: ExchangeData, k: int) {
    && 0 <= k < |queue| && Interesting(queue[k], received)
    && forall j :: 0 <= j < k ==> !Interesting(queue[j], received)
  }

  /**
   * The first interesting MIME type of `queue`, with the queue after it; the
   * empty string and an empty queue when none is left. Uninteresting types
   * in front of it are dropped.
   */
  function NextMime(queue: seq<MimeType>, received: ExchangeData): (p: Pick)
    ensures p.mimeType == "" <==> forall m :: m in queue ==> !Interesting(m, received)
    ensures p.mimeType == "" ==> p.rest == []
    ensures p.mimeType != "" ==>
              exists k :: FirstInterestingAt(queue, received, k) && queue[k] == p.mimeType && p.rest == queue[k + 1..]
    ensures forall m :: m in p.rest ==> m in queue
    ensures |p.rest| < |queue| || queue == []
  {
    if queue == [] then Pick("", [])
    else if Interesting(queue[0], received) then
      assert FirstInterestingAt(queue, received, 0);
      Pick(queue[0], queue[1..])
    else
      var p := NextMime(queue[1..], received);
      assert p.mimeType != "" ==>
               exists k :: FirstInterestingAt(queue, received, k) && queue[k] == p.mimeType && p.rest == queue[k + 1..] by {
        if p.mimeType != "" {
          var k :| FirstInterestingAt(queue[1..], received, k) && queue[1..][k] == p.mimeType && p.rest == queue[1..][k + 1..];
          assert queue[1..][k + 1..] == queue[k + 2..];
          forall j | 0 <= j < k + 1 ensures !Interesting(queue[j], received) {
            if j > 0 { assert queue[j] == queue[1..][j - 1]; }
          }
          assert FirstInterestingAt(queue, received, k + 1);
        }
      }
      p
  }

  /**
   * `priority[k]` is the first type of `priority` that the offer advertises
   * and whose data has not arrived yet.
   */
  ghost predicate FirstWantedAt(priority: seq<MimeType>, advertised: set<MimeType>, received: ExchangeData, k: int) {
    && 0 <= k < |priority| && priority[k] in advertised && Interesting(priority[k], received)
    && forall j :: 0 <= j < k && priority[j] in advertised ==> !Interesting(priority[j], received)
  }

  /** A negotiated queue has nothing left to read iff no advertised type of `priority` is still to arrive. */
  lemma NegotiatedNothingLeft(priority: seq<MimeType>, advertised: set<MimeType>, received: ExchangeData)
    ensures NextMime(Negotiate(priority, advertised), received).mimeType == "" <==>
            forall j :: 0 <= j < |priority| && priority[j] in advertised ==> !Interesting(priority[j], received)
  {
    var queue := Negotiate(priority, advertised);
    if NextMime(queue, received).mimeType == "" {
      forall j | 0 <= j < |priority| && priority[j] in advertised ensures !Interesting(priority[j], received) {
        assert priority[j] in queue;
      }
    }
  }

  /** A head of `priority` that is not advertised, or already arrived, is not read. */
  lemma NegotiatedSkipsHead(priority: seq<MimeType>, advertised: set<MimeType>, received: ExchangeData)
    requires priority != [] && !(priority[0] in advertised && Interesting(priority[0], received))
    ensures NextMime(Negotiate(priority, advertised), received) == NextMime(Negotiate(priority[1..], advertised), received)
  {
    var rest := Negotiate(priority[1..], advertised);
    if priority[0] in advertised {
      assert Negotiate(priority, advertised) == [priority[0]] + rest;
      assert ([priority[0]] + rest)[1..] == rest;
    }
  }

  /** An advertised head of `priority` still to arrive is read first. */
  lemma NegotiatedTakesHead(priority: seq<MimeType>, advertised: set<MimeType>, received: ExchangeData)
    requires priority != [] && priority[0] in advertised && Interesting(priority[0], received)
    ensures NextMime(Negotiate(priority, advertised), received) == Pick(priority[0], Negotiate(priority[1..], advertised))
  {
    assert Negotiate(priority, advertised) == [priority[0]] + Negotiate(priority[1..], advertised);
  }

  /** The first wanted type of the tail of `priority`, when the head is not wanted, is the first of `priority`. */
  lemma FirstWantedAfterHead(priority: seq<MimeType>, advertised: set<MimeType>, received: ExchangeData, k: int)
    requires priority != [] && !(priority[0] in advertised && Interesting(priority[0], received))
    requires FirstWantedAt(priority[1..], advertised, received, k)
    ensures FirstWantedAt(priority, advertised, received, k + 1) && priority[k + 1] == priority[1..][k]
    ensures priority[1..][k + 1..] == priority[k + 2..]
  {
    forall j | 0 <= j < k + 1 && priority[j] in advertised ensures !Interesting(priority[j], received) {
      if j > 0 { assert priority[j] == priority[1..][j - 1]; }
    }
  }

  /**
   * Reading a negotiated queue follows `priority`: the type read next is the
   * first wanted type of `priority` still to arrive, and the queue left
   * behind is the negotiation of what follows it in `priority`.
   */
  lemma {:induction false} NegotiatedReadOrder(priority: seq<MimeType>, advertised: set<MimeType>, received: ExchangeData)
    ensures var p := NextMime(Negotiate(priority, advertised), received);
            p.mimeType != "" ==>
              exists k :: && FirstWantedAt(priority, advertised, received, k) && priority[k] == p.mimeType
                          && p.rest == Negotiate(priority[k + 1..], advertised)
    decreases |priority|
  {
    var p := NextMime(Negotiate(priority, advertised), received);
    if priority != [] && p.mimeType != "" {
      if priority[0] in advertised && Interesting(priority[0], received) {
        NegotiatedTakesHead(priority, advertised, received);
        assert FirstWantedAt(priority, advertised, received, 0);
        assert priority[1..] == priority[0 + 1..];
      } else {
        NegotiatedSkipsHead(priority, advertised, received);
        NegotiatedReadOrder(priority[1..], advertised, received);
        var k :| FirstWantedAt(priority[1..], advertised, received, k) && priority[1..][k] == p.mimeType
                 && p.rest == Negotiate(priority[1..][k + 1..], advertised);
        FirstWantedAfterHead(priority, advertised, received, k);
      }
    }
  }

  // ----- Queries -----

  /** The data received so far for the drop being read (empty when none). */
  function Received(s: State): ExchangeData {
    s.receivedData.GetOr(map[])
  }

  /** Whether any offer slot holds an offer with identity `id`. */
  predicate HoldsOffer(s: State, id: nat) {
    || (s.newOffer.Some? && s.newOffer.value.id == id)
    || (s.selectionOffer.Some? && s.selectionOffer.value.id == id)
    || (s.dragOffer.Some? && s.dragOffer.value.id == id)
  }

  predicate IsDragEntered(s: State) {
    s.dragOffer.Some?
  }

  /** No outgoing drag data is held, so a drag in progress comes from another client. */
  predicate IsDraggingExternalData(s: State) {
    s.sourceData.None?
  }

  /** The MIME types of the current clipboard selection. */
  function AvailableMimeTypes(s: State): set<MimeType> {
    if s.selectionOffer.Some? then s.selectionOffer.value.mimeTypes else {}
  }

  /** The answer to a peer reading our outgoing drag: whether we have the type, and its bytes. */
  function DeliverDragData(s: State, mimeType: MimeType): (bool, string) {
    if s.sourceData.Some? && mimeType in s.sourceData.value then (true, s.sourceData.value[mimeType])
    else (false, "")
  }

  // ----- Compositor events -----

  /** A new offer is parked until an enter or selection event tells what it is. */
  function OnDataOffer(s: State, offer: Offer): Outcome {
    if HoldsOffer(s, offer.id) then Outcome(s, ProtocolViolation)
    else Outcome(s.(newOffer := Some(offer)), Ok)
  }

  /** The parked offer becomes the drag offer and its negotiated MIME types are queued. */
  function OnEnter(s: State, offerId: nat, priority: seq<MimeType>): Outcome {
    if s.newOffer.None? || s.newOffer.value.id != offerId || s.dragOffer.Some? then
      Outcome(s, ProtocolViolation)
    else
      Outcome(s.(dragOffer := s.newOffer, newOffer := None,
                 unprocessedMimeTypes := Negotiate(priority, s.newOffer.value.mimeTypes)), Ok)
  }

  /** The parked offer replaces the selection offer; no offer means the clipboard is empty. */
  function OnSelection(s: State, selected: Option<nat>): Outcome {
    match selected
    case None => Outcome(s.(selectionOffer := None), Ok)
    case Some(id) =>
      if s.newOffer.Some? && s.newOffer.value.id == id then
        Outcome(s.(selectionOffer := s.newOffer, newOffer := None), Ok)
      else
        Outcome(s, ProtocolViolation)
  }

  /**
   * The drag leaves. While a drop's data is being read the leave is only
   * recorded; otherwise the drag offer is dropped at once.
   */
  function OnLeave(s: State): Outcome {
    if s.dragOffer.None? then Outcome(s, ProtocolViolation)
    else if s.isHandlingDroppedData then Outcome(s.(isLeaving := true), Ok)
    else Outcome(s.(dragOffer := None, isHandlingDroppedData := false, isLeaving := false,
                    deliveries := s.deliveries + [DragLeft]), Ok)
  }

  /** A leave recorded during the read is handled now. */
  function HandleDeferredLeaveIfNeeded(s: State): State {
    if s.isLeaving then OnLeave(s).state else s
  }

  /** The whole aggregate goes to the window, then a deferred leave is handled. */
  function HandleReceivedData(s: State): State {
    HandleDeferredLeaveIfNeeded(
      s.(deliveries := s.deliveries + [DropData(Received(s))], unprocessedMimeTypes := [],
         receivedData := None, isHandlingDroppedData := false))
  }

  /** Arms the deferred read for `mimeType` of the drag offer, if nothing else is being read. */
  function RequestDragRead(s: State, mimeType: MimeType, target: ReadTarget): Outcome {
    if s.dragOffer.None? then Outcome(s, NoActiveOffer)
    else if s.deferredRead.Some? then Outcome(s, ReadInProgress)
    else Outcome(s.(deferredRead := Some(PendingRead(mimeType, mimeType in s.dragOffer.value.mimeTypes, target))), Ok)
  }

  /** Requests the next interesting MIME type of the queue, or hands the aggregate over when none is left. */
  function HandleUnprocessedMimeTypes(s: State): State {
    var pick := NextMime(s.unprocessedMimeTypes, Received(s));
    var next := s.(unprocessedMimeTypes := pick.rest);
    if pick.mimeType == "" then HandleReceivedData(next)
    else RequestDragRead(next, pick.mimeType, ToNegotiation).state
  }

  /** Non-empty bytes are kept under their MIME type in the aggregate being built. */
  function KeepReceived(s: State, mimeType: MimeType, contents: string): State {
    if contents != "" && s.receivedData.Some? then
      s.(receivedData := Some(s.receivedData.value[mimeType := contents]))
    else s
  }

  /** The bytes of one negotiated type arrive; then the queue moves on. */
  function OnDragDataReceived(s: State, mimeType: MimeType, contents: string): State {
    HandleUnprocessedMimeTypes(KeepReceived(s, mimeType, contents))
  }

  /** The drop starts reading every negotiated MIME type, one after another. */
  function OnDrop(s: State): Outcome {
    if s.dragOffer.None? || s.isHandlingDroppedData then Outcome(s, ProtocolViolation)
    else if s.deferredRead.Some? then Outcome(s, ReadInProgress)
    else Outcome(HandleUnprocessedMimeTypes(s.(receivedData := Some(map[]), isHandlingDroppedData := true)), Ok)
  }

  /** The bytes a deferred read yields: what the peer wrote, or nothing for a type it did not advertise. */
  function ReadBytes(read: PendingRead, contents: string): string {
    if read.advertised then contents else ""
  }

  /**
   * The display sync round trip is done: the deferred read runs once, with
   * the bytes the pipe yields, and is cleared before it runs.
   */
  function DeferredReadCallback(s: State, contents: string): Outcome {
    match s.deferredRead
    case None => Outcome(s, ProtocolViolation)
    case Some(read) =>
      var cleared := s.(deferredRead := None);
      var bytes := ReadBytes(read, contents);
      match read.target
      case ToClipboard =>
        Outcome(cleared.(deliveries := cleared.deliveries + [ClipboardData(read.mimeType, bytes)]), Ok)
      case ToDragCallback(callback) =>
        Outcome(cleared.(deliveries := cleared.deliveries + [DragData(callback, bytes)]), Ok)
      case ToNegotiation =>
        Outcome(OnDragDataReceived(cleared, read.mimeType, bytes), Ok)
  }

  // ----- Requests from above -----

  /** Arms the deferred read of the clipboard selection for `mimeType`. */
  function RequestSelectionData(s: State, mimeType: MimeType): Outcome {
    if s.selectionOffer.None? then Outcome(s, NoActiveOffer)
    else if s.deferredRead.Some? then Outcome(s, ReadInProgress)
    else Outcome(s.(deferredRead := Some(PendingRead(mimeType, mimeType in s.selectionOffer.value.mimeTypes, ToClipboard))), Ok)
  }

  /** Starts an outgoing drag with `data`, unless a drag of either direction is active. */
  function StartDrag(s: State, data: ExchangeData): Outcome {
    if s.sourceData.Some? || s.dragOffer.Some? then Outcome(s, DragInProgress)
    else Outcome(s.(sourceData := Some(data)), Ok)
  }

  function ResetSourceData(s: State): State {
    s.(sourceData := None)
  }

  /** One event, dispatched to its handler. */
  function Step(s: State, e: Event, priority: seq<MimeType>): Outcome {
    match e
    case DataOfferEvent(offer) => OnDataOffer(s, offer)
    case EnterEvent(offerId) => OnEnter(s, offerId, priority)
    case DropEvent => OnDrop(s)
    case LeaveEvent => OnLeave(s)
    case SelectionEvent(selected) => OnSelection(s, selected)
    case SyncDone(contents) => DeferredReadCallback(s, contents)
    case RequestSelection(mimeType) => RequestSelectionData(s, mimeType)
    case RequestDrag(mimeType, callback) => RequestDragRead(s, mimeType, ToDragCallback(callback))
    case StartDragRequest(data) => StartDrag(s, data)
    case ResetSource => Outcome(ResetSourceData(s), Ok)
  }

  /** The state after a sequence of events, first to last. */
  function Run(s: State, events: seq<Event>, priority: seq<MimeType>): State
    decreases |events|
  {
    if events == [] then s else Run(Step(s, events[0], priority).state, events[1..], priority)
  }

  // ----- The invariant -----

  /** No offer sits in two slots. */
  ghost predicate DistinctSlots(s: State) {
    && (s.newOffer.Some? && s.selectionOffer.Some? ==> s.newOffer.value.id != s.selectionOffer.value.id)
    && (s.newOffer.Some? && s.dragOffer.Some? ==> s.newOffer.value.id != s.dragOffer.value.id)
    && (s.selectionOffer.Some? && s.dragOffer.Some? ==> s.selectionOffer.value.id != s.dragOffer.value.id)
  }

  /** A MIME type both advertised by `offer` and wanted by the device. */
  ghost predicate Negotiated(m: MimeType, offer: Offer, priority: seq<MimeType>) {
    m in offer.mimeTypes && m in priority
  }

  /**
   * The state the device keeps between events:
   * - a deferred leave exists only during a drop's read;
   * - during that read the drag offer is held, an aggregate is being built
   *   and exactly the negotiation's read is deferred, and no other time is a
   *   negotiation read deferred;
   * - the queue, the data received and the pending negotiation read only
   *   name MIME types negotiated with the drag offer.
   */
  ghost predicate Inv(s: State, priority: seq<MimeType>) {
    && DistinctSlots(s)
    && (s.isLeaving ==> s.isHandlingDroppedData)
    && (s.isHandlingDroppedData <==> s.receivedData.Some?)
    && (s.isHandlingDroppedData ==>
          s.dragOffer.Some? && s.deferredRead.Some? && s.deferredRead.value.target.ToNegotiation?)
    && (s.deferredRead.Some? && s.deferredRead.value.target.ToNegotiation? ==> s.isHandlingDroppedData)
    && (s.dragOffer.Some? ==>
          && (forall m :: m in s.unprocessedMimeTypes ==> Negotiated(m, s.dragOffer.value, priority))
          && (s.receivedData.Some? ==>
                forall m :: m in s.receivedData.value ==> Negotiated(m, s.dragOffer.value, priority))
          && (s.deferredRead.Some? && s.deferredRead.value.target.ToNegotiation? ==>
                Negotiated(s.deferredRead.value.mimeType, s.dragOffer.value, priority) &&
                s.deferredRead.value.advertised))
  }

  lemma InitialInv(priority: seq<MimeType>)
    ensures Inv(Initial, priority)
  {
  }

  /**
   * Asking for the next MIME type during a drop either defers the read of
   * the first interesting queued type, delivering nothing, or, when no
   * interesting type is left, empties the queue and delivers the aggregate
   * (followed by the drag leaving if a leave was deferred).
   */
  lemma HandleUnprocessedMimeTypesEffect(s: State, priority: seq<MimeType>)
    requires s.dragOffer.Some? && s.deferredRead.None? && s.isHandlingDroppedData && s.receivedData.Some?
    ensures var t := HandleUnprocessedMimeTypes(s);
            var pick := NextMime(s.unprocessedMimeTypes, Received(s));
            if forall m :: m in s.unprocessedMimeTypes ==> !Interesting(m, Received(s)) then
              && t.unprocessedMimeTypes == [] && t.deferredRead.None? && !t.isHandlingDroppedData
              && t.receivedData.None? && !t.isLeaving
              && t.deliveries == s.deliveries + [DropData(s.receivedData.value)] +
                                 (if s.isLeaving then [DragLeft] else [])
              && (t.dragOffer.None? <==> s.isLeaving)
            else
              && t.deferredRead == Some(PendingRead(pick.mimeType, pick.mimeType in s.dragOffer.value.mimeTypes, ToNegotiation))
              && pick.mimeType in s.unprocessedMimeTypes
              && t.deliveries == s.deliveries && t.dragOffer == s.dragOffer
              && t.isHandlingDroppedData && t.isLeaving == s.isLeaving
              && t.receivedData == s.receivedData
              && (forall m :: m in t.unprocessedMimeTypes ==> m in s.unprocessedMimeTypes)
  {
  }

  /**
   * Between two reads of a drop: the drag offer is held, the aggregate is
   * being built, no read is armed, and the queue and the aggregate hold
   * negotiated MIME types only.
   */
  ghost predicate Reading(s: State, priority: seq<MimeType>) {
    && DistinctSlots(s)
    && s.dragOffer.Some? && s.deferredRead.None? && s.isHandlingDroppedData && s.receivedData.Some?
    && (forall m :: m in s.unprocessedMimeTypes ==> Negotiated(m, s.dragOffer.value, priority))
    && (forall m :: m in s.receivedData.value ==> Negotiated(m, s.dragOffer.value, priority))
  }

  /** Moving the queue on from between two reads restores the invariant. */
  lemma HandleUnprocessedPreservesInv(s: State, priority: seq<MimeType>)
    requires Reading(s, priority)
    ensures Inv(HandleUnprocessedMimeTypes(s), priority)
  {
    HandleUnprocessedMimeTypesEffect(s, priority);
  }

  /** A drop keeps the invariant: the aggregate starts empty and the first negotiated read is deferred. */
  lemma OnDropPreservesInv(s: State, priority: seq<MimeType>)
    requires Inv(s, priority)
    ensures Inv(OnDrop(s).state, priority)
  {
    if s.dragOffer.Some? && !s.isHandlingDroppedData && s.deferredRead.None? {
      HandleUnprocessedPreservesInv(s.(receivedData := Some(map[]), isHandlingDroppedData := true), priority);
    }
  }

  /** Running the deferred read keeps the invariant, also when it moves a drop's read on. */
  lemma DeferredReadCallbackPreservesInv(s: State, contents: string, priority: seq<MimeType>)
    requires Inv(s, priority)
    ensures Inv(DeferredReadCallback(s, contents).state, priority)
  {
    if s.deferredRead.Some? && s.deferredRead.value.target.ToNegotiation? {
      var read := s.deferredRead.value;
      var kept := KeepReceived(s.(deferredRead := None), read.mimeType, ReadBytes(read, contents));
      assert Reading(kept, priority);
      HandleUnprocessedPreservesInv(kept, priority);
    }
  }

  /** Classifying or announcing offers keeps the invariant. */
  lemma OfferEventsPreserveInv(s: State, e: Event, priority: seq<MimeType>)
    requires Inv(s, priority)
    requires e.DataOfferEvent? || e.EnterEvent? || e.SelectionEvent? || e.LeaveEvent?
    ensures Inv(Step(s, e, priority).state, priority)
  {
  }

  /** Every event keeps the invariant. */
  lemma StepPreservesInv(s: State, e: Event, priority: seq<MimeType>)
    requires Inv(s, priority)
    ensures Inv(Step(s, e, priority).state, priority)
  {
    match e
    case DropEvent => OnDropPreservesInv(s, priority);
    case SyncDone(contents) => DeferredReadCallbackPreservesInv(s, contents, priority);
    case DataOfferEvent(_) => OfferEventsPreserveInv(s, e, priority);
    case EnterEvent(_) => OfferEventsPreserveInv(s, e, priority);
    case SelectionEvent(_) => OfferEventsPreserveInv(s, e, priority);
    case LeaveEvent => OfferEventsPreserveInv(s, e, priority);
    case _ =>
  }

  /** Every reachable state keeps the invariant. */
  lemma {:induction false} RunPreservesInv(s: State, events: seq<Event>, priority: seq<MimeType>)
    requires Inv(s, priority)
    ensures Inv(Run(s, events, priority), priority)
    decreases |events|
  {
    if events != [] {
      StepPreservesInv(s, events[0], priority);
      RunPreservesInv(Step(s, events[0], priority).state, events[1..], priority);
    }
  }

  /** Handing the queue on only ever adds deliveries. */
  lemma HandleUnprocessedOnlyAppends(s: State)
    ensures s.deliveries <= HandleUnprocessedMimeTypes(s).deliveries
  {
    var pick := NextMime(s.unprocessedMimeTypes, Received(s));
    var next := s.(unprocessedMimeTypes := pick.rest);
    if pick.mimeType == "" {
      assert HandleUnprocessedMimeTypes(s) == HandleReceivedData(next);
    } else {
      assert HandleUnprocessedMimeTypes(s).deliveries == s.deliveries;
    }
  }

  /** Running the deferred read only ever adds deliveries. */
  lemma DeferredReadCallbackOnlyAppends(s: State, contents: string)
    ensures s.deliveries <= DeferredReadCallback(s, contents).state.deliveries
  {
    if s.deferredRead.Some? && s.deferredRead.value.target.ToNegotiation? {
      HandleUnprocessedOnlyAppends(KeepReceived(s.(deferredRead := None), s.deferredRead.value.mimeType,
                                                ReadBytes(s.deferredRead.value, contents)));
    }
  }

  /** No event takes back a delivery. */
  lemma StepOnlyAppendsDeliveries(s: State, e: Event, priority: seq<MimeType>)
    ensures s.deliveries <= Step(s, e, priority).state.deliveries
  {
    match e
    case DropEvent =>
      HandleUnprocessedOnlyAppends(s.(receivedData := Some(map[]), isHandlingDroppedData := true));
    case SyncDone(contents) =>
      DeferredReadCallbackOnlyAppends(s, contents);
    case _ =>
  }

  /** The device never takes back what it has handed upward. */
  lemma {:induction false} RunOnlyAppendsDeliveries(s: State, events: seq<Event>, priority: seq<MimeType>)
    ensures s.deliveries <= Run(s, events, priority).deliveries
    decreases |events|
  {
    if events != [] {
      var t := Step(s, events[0], priority).state;
      StepOnlyAppendsDeliveries(s, events[0], priority);
      RunOnlyAppendsDeliveries(t, events[1..], priority);
    }
  }

  // ----- Properties -----

  /**
   * An enter moves the parked offer, and only it, into the drag slot: the
   * offer leaves the parking slot, the selection slot is untouched and the
   * two classified slots never hold the same offer.
   */
  lemma EnterClassifiesParkedOffer(s: State, offerId: nat, priority: seq<MimeType>)
    requires Inv(s, priority)
    ensures var o := OnEnter(s, offerId, priority);
            && (o.status == Ok <==> s.newOffer.Some? && s.newOffer.value.id == offerId && s.dragOffer.None?)
            && (o.status == Ok ==>
                  && o.state.dragOffer == s.newOffer && o.state.newOffer.None?
                  && o.state.selectionOffer == s.selectionOffer
                  && (o.state.selectionOffer.Some? ==> o.state.selectionOffer.value.id != offerId)
                  && IsDragEntered(o.state)
                  && (forall m :: m in o.state.unprocessedMimeTypes <==> Negotiated(m, s.newOffer.value, priority)))
            && (o.status != Ok ==> o.state == s)
  {
  }

  /**
   * A selection event replaces the selection offer by the parked offer, so
   * the clipboard types are those of the most recent selection; the drag
   * slot is untouched.
   */
  lemma SelectionReplacesPrevious(s: State, selected: Option<nat>, priority: seq<MimeType>)
    requires Inv(s, priority)
    ensures var o := OnSelection(s, selected);
            && (selected.None? ==> o.status == Ok && o.state.selectionOffer.None? && AvailableMimeTypes(o.state) == {})
            && (selected.Some? && s.newOffer.Some? && s.newOffer.value.id == selected.value ==>
                  && o.status == Ok && o.state.selectionOffer == s.newOffer && o.state.newOffer.None?
                  && AvailableMimeTypes(o.state) == s.newOffer.value.mimeTypes
                  && (o.state.dragOffer.Some? ==> o.state.dragOffer.value.id != selected.value))
            && o.state.dragOffer == s.dragOffer
            && (o.status != Ok ==> o.state == s)
  {
  }

  /**
   * A leave that arrives while a drop's data is being read keeps the drag
   * offer and the read; it is only recorded.
   */
  lemma LeaveDuringReadIsDeferred(s: State, priority: seq<MimeType>)
    requires Inv(s, priority) && s.isHandlingDroppedData
    ensures var o := OnLeave(s);
            && o.status == Ok && o.state.isLeaving
            && o.state.dragOffer == s.dragOffer && IsDragEntered(o.state)
            && o.state.deferredRead == s.deferredRead
            && o.state.deliveries == s.deliveries
  {
  }

  /**
   * While a drop's data is being read, no event drops the drag offer or
   * delivers anything until the aggregate is complete; then the aggregate
   * is delivered first, holding only negotiated MIME types, and a deferred
   * leave is handled right after it.
   */
  lemma DropReadOrdering(s: State, e: Event, priority: seq<MimeType>)
    requires Inv(s, priority) && s.isHandlingDroppedData
    ensures var t := Step(s, e, priority).state;
            if t.isHandlingDroppedData then
              && t.dragOffer == s.dragOffer && t.deliveries == s.deliveries
              && (s.isLeaving ==> t.isLeaving)
            else
              && e.SyncDone?
              && |t.deliveries| == |s.deliveries| + (if s.isLeaving then 2 else 1)
              && t.deliveries[..|s.deliveries|] == s.deliveries
              && t.deliveries[|s.deliveries|].DropData?
              && (forall m :: m in t.deliveries[|s.deliveries|].data ==> Negotiated(m, s.dragOffer.value, priority))
              && (s.isLeaving ==> t.deliveries[|s.deliveries| + 1] == DragLeft && t.dragOffer.None?)
              && (!s.isLeaving ==> t.dragOffer == s.dragOffer)
              && t.unprocessedMimeTypes == [] && t.receivedData.None? && t.deferredRead.None?
  {
    if e.SyncDone? {
      HandleUnprocessedMimeTypesEffect(KeepReceived(s.(deferredRead := None), s.deferredRead.value.mimeType,
                                                    ReadBytes(s.deferredRead.value, e.contents)), priority);
    }
  }

  /**
   * A drop reads its MIME types in priority order. When the queue is the
   * negotiation of a tail `wanted` of the priority (right after the enter,
   * `wanted` is the whole priority), moving on arms the read of the first
   * type of `wanted` that the offer advertises and that has not arrived
   * yet, and leaves the negotiation of what follows it queued; the drop's
   * read ends only when no such type is left.
   */
  lemma DropReadsInPriorityOrder(s: State, wanted: seq<MimeType>, priority: seq<MimeType>)
    requires Reading(s, priority) && s.unprocessedMimeTypes == Negotiate(wanted, s.dragOffer.value.mimeTypes)
    ensures var t := HandleUnprocessedMimeTypes(s);
            var offered := s.dragOffer.value.mimeTypes;
            && (t.isHandlingDroppedData <==> exists k :: FirstWantedAt(wanted, offered, Received(s), k))
            && (t.isHandlingDroppedData ==>
                  exists k :: && FirstWantedAt(wanted, offered, Received(s), k)
                              && t.deferredRead == Some(PendingRead(wanted[k], true, ToNegotiation))
                              && t.unprocessedMimeTypes == Negotiate(wanted[k + 1..], offered))
  {
    if NextMime(s.unprocessedMimeTypes, Received(s)).mimeType == "" {
      DropReadStops(s, wanted, priority);
    } else {
      DropReadArmsNext(s, wanted, priority);
    }
  }

  /** With no wanted type left to arrive, the drop's read ends. */
  lemma DropReadStops(s: State, wanted: seq<MimeType>, priority: seq<MimeType>)
    requires Reading(s, priority) && s.unprocessedMimeTypes == Negotiate(wanted, s.dragOffer.value.mimeTypes)
    requires NextMime(s.unprocessedMimeTypes, Received(s)).mimeType == ""
    ensures !HandleUnprocessedMimeTypes(s).isHandlingDroppedData
    ensures !exists k :: FirstWantedAt(wanted, s.dragOffer.value.mimeTypes, Received(s), k)
  {
    var offered := s.dragOffer.value.mimeTypes;
    var next := s.(unprocessedMimeTypes := []);
    assert HandleUnprocessedMimeTypes(s) == HandleReceivedData(next);
    NegotiatedNothingLeft(wanted, offered, Received(s));
  }

  /** With a wanted type left to arrive, the read of the first one is armed. */
  lemma DropReadArmsNext(s: State, wanted: seq<MimeType>, priority: seq<MimeType>)
    requires Reading(s, priority) && s.unprocessedMimeTypes == Negotiate(wanted, s.dragOffer.value.mimeTypes)
    requires NextMime(s.unprocessedMimeTypes, Received(s)).mimeType != ""
    ensures var t := HandleUnprocessedMimeTypes(s);
            var offered := s.dragOffer.value.mimeTypes;
            && t.isHandlingDroppedData
            && exists k :: && FirstWantedAt(wanted, offered, Received(s), k)
                           && t.deferredRead == Some(PendingRead(wanted[k], true, ToNegotiation))
                           && t.unprocessedMimeTypes == Negotiate(wanted[k + 1..], offered)
  {
    var offered := s.dragOffer.value.mimeTypes;
    var pick := NextMime(s.unprocessedMimeTypes, Received(s));
    var next := s.(unprocessedMimeTypes := pick.rest);
    assert HandleUnprocessedMimeTypes(s) == RequestDragRead(next, pick.mimeType, ToNegotiation).state;
    NegotiatedReadOrder(wanted, offered, Received(s));
    var k :| FirstWantedAt(wanted, offered, Received(s), k) && wanted[k] == pick.mimeType
             && pick.rest == Negotiate(wanted[k + 1..], offered);
    assert RequestDragRead(next, pick.mimeType, ToNegotiation).state ==
           next.(deferredRead := Some(PendingRead(wanted[k], true, ToNegotiation)));
  }

  /**
   * The bytes of every negotiated type reach the aggregate: during a drop's
   * read, a sync round trip whose pipe yields non-empty `contents` stores
   * them under the armed type, keeping the types already read, either in
   * the aggregate still being built or, when that was the last type, in
   * the aggregate handed to the window; empty bytes leave it as it was.
   */
  lemma DropReadKeepsBytes(s: State, contents: string, priority: seq<MimeType>)
    requires Inv(s, priority) && s.isHandlingDroppedData
    ensures var kept := if contents != "" then s.receivedData.value[s.deferredRead.value.mimeType := contents]
                        else s.receivedData.value;
            var t := Step(s, SyncDone(contents), priority).state;
            if t.isHandlingDroppedData then t.receivedData == Some(kept)
            else |t.deliveries| > |s.deliveries| && t.deliveries[|s.deliveries|] == DropData(kept)
  {
    var read := s.deferredRead.value;
    var kept := KeepReceived(s.(deferredRead := None), read.mimeType, contents);
    assert Step(s, SyncDone(contents), priority).state == HandleUnprocessedMimeTypes(kept);
    var pick := NextMime(kept.unprocessedMimeTypes, Received(kept));
    var next := kept.(unprocessedMimeTypes := pick.rest);
    if pick.mimeType == "" {
      var delivered := next.(deliveries := next.deliveries + [DropData(Received(next))], unprocessedMimeTypes := [],
                             receivedData := None, isHandlingDroppedData := false);
      assert HandleUnprocessedMimeTypes(kept) == HandleDeferredLeaveIfNeeded(delivered);
      assert HandleDeferredLeaveIfNeeded(delivered).deliveries[|s.deliveries|] == DropData(Received(next));
    } else {
      assert HandleUnprocessedMimeTypes(kept).receivedData == kept.receivedData;
    }
  }

  /**
   * A clipboard read end to end: with a selection and no read armed,
   * requesting `mimeType` and completing the sync round trip hands the
   * connection exactly the bytes the peer wrote (nothing, for a type the
   * selection does not advertise) and changes nothing else.
   */
  lemma SelectionReadDelivers(s: State, mimeType: MimeType, contents: string, priority: seq<MimeType>)
    requires s.selectionOffer.Some? && s.deferredRead.None?
    ensures var armed := Step(s, RequestSelection(mimeType), priority);
            var done := Step(armed.state, SyncDone(contents), priority);
            var bytes := if mimeType in s.selectionOffer.value.mimeTypes then contents else "";
            && armed.status == Ok && armed.state.deliveries == s.deliveries
            && done.status == Ok
            && done.state == s.(deliveries := s.deliveries + [ClipboardData(mimeType, bytes)])
  {
  }

  /**
   * An upward drag-data request end to end: with a drag offer and no read
   * armed, requesting `mimeType` and completing the sync round trip calls
   * `callback` once, with exactly the bytes the peer wrote (nothing, for a
   * type the drag offer does not advertise), and changes nothing else.
   */
  lemma DragReadDelivers(s: State, mimeType: MimeType, callback: nat, contents: string, priority: seq<MimeType>)
    requires s.dragOffer.Some? && s.deferredRead.None?
    ensures var armed := Step(s, RequestDrag(mimeType, callback), priority);
            var done := Step(armed.state, SyncDone(contents), priority);
            var bytes := if mimeType in s.dragOffer.value.mimeTypes then contents else "";
            && armed.status == Ok && armed.state.deliveries == s.deliveries
            && done.status == Ok
            && done.state == s.(deliveries := s.deliveries + [DragData(callback, bytes)])
  {
  }

  /**
   * A deferred read for the clipboard or an upward callback runs once, when
   * the sync callback fires, and is cleared: a second sync callback finds
   * nothing to run and delivers nothing.
   */
  lemma DeferredReadRunsOnce(s: State, first: string, second: string)
    requires s.deferredRead.Some? && !s.deferredRead.value.target.ToNegotiation?
    ensures var read := s.deferredRead.value;
            var bytes := if read.advertised then first else "";
            var delivered := if read.target.ToClipboard? then ClipboardData(read.mimeType, bytes)
                             else DragData(read.target.callback, bytes);
            var once := DeferredReadCallback(s, first);
            var twice := DeferredReadCallback(once.state, second);
            && once.status == Ok
            && once.state == s.(deferredRead := None, deliveries := s.deliveries + [delivered])
            && twice.status == ProtocolViolation && twice.state == once.state
  {
  }

  /** Without a deferred read armed, a sync callback runs nothing. */
  lemma NoReadWithoutRequest(s: State, contents: string)
    requires s.deferredRead.None?
    ensures DeferredReadCallback(s, contents) == Outcome(s, ProtocolViolation)
  {
  }

  /**
   * Outgoing drag data: after a reset the device holds none, the next drag
   * it sees is someone else's, and a peer asking for data gets nothing;
   * resetting twice is the same as once.
   */
  lemma ResetSourceDataClearsOutgoing(s: State, mimeType: MimeType)
    ensures var t := ResetSourceData(s);
            && t.sourceData.None? && IsDraggingExternalData(t)
            && DeliverDragData(t, mimeType) == (false, "")
            && ResetSourceData(t) == t
            && t.(sourceData := s.sourceData) == s
  {
  }

  /** A started drag answers the peer's reads from its own data, and only for the types it has. */
  lemma StartDragDelivers(s: State, data: ExchangeData, mimeType: MimeType)
    requires s.sourceData.None? && s.dragOffer.None?
    ensures var o := StartDrag(s, data);
            && o.status == Ok && !IsDraggingExternalData(o.state)
            && DeliverDragData(o.state, mimeType) ==
                 (if mimeType in data then (true, data[mimeType]) else (false, ""))
            && StartDrag(o.state, data).status == DragInProgress
  {
  }

  const ExamplePriority: seq<MimeType> := ["text/html", "text/plain", "text/uri-list"]
  const ExampleOffer: Offer := Offer(7, {"text/plain", "text/html"})
  const ExampleHtml: ExchangeData := map["text/html" := "<b>hi</b>"]
  const ExampleBoth: ExchangeData := map["text/html" := "<b>hi</b>", "text/plain" := "hi"]

  /** Of the example's wanted types, the offer advertises the first two, and they keep their priority order. */
  lemma ExampleQueue()
    ensures Negotiate(ExamplePriority, ExampleOffer.mimeTypes) == ["text/html", "text/plain"]
  {
    var advertised := ExampleOffer.mimeTypes;
    assert ExamplePriority[1..] == ["text/plain", "text/uri-list"];
    assert ["text/plain", "text/uri-list"][1..] == ["text/uri-list"];
    assert Negotiate(["text/uri-list"], advertised) == [];
    assert Negotiate(["text/plain", "text/uri-list"], advertised) == ["text/plain"];
  }

  /** After the offer is announced and entered, its two advertised wanted types are queued in priority order. */
  lemma ExampleEnter()
    ensures Step(Step(Initial, DataOfferEvent(ExampleOffer), ExamplePriority).state, EnterEvent(7), ExamplePriority).state
            == State(None, None, Some(ExampleOffer), None, false, false, ["text/html", "text/plain"], None, None, [])
  {
    var offered := State(Some(ExampleOffer), None, None, None, false, false, [], None, None, []);
    assert Step(Initial, DataOfferEvent(ExampleOffer), ExamplePriority).state == offered;
    EnterParkedOffer(offered, ExamplePriority);
    ExampleQueue();
  }

  /** Entering the parked offer moves it to the drag slot and queues the negotiated types. */
  lemma EnterParkedOffer(s: State, priority: seq<MimeType>)
    requires s.newOffer.Some? && s.dragOffer.None?
    ensures Step(s, EnterEvent(s.newOffer.value.id), priority).state
            == s.(dragOffer := s.newOffer, newOffer := None,
                  unprocessedMimeTypes := Negotiate(priority, s.newOffer.value.mimeTypes))
  {
  }

  /** The drop defers the read of the first queued type. */
  lemma ExampleDrop()
    ensures Step(State(None, None, Some(ExampleOffer), None, false, false, ["text/html", "text/plain"], None, None, []),
                 DropEvent, ExamplePriority).state
            == State(None, None, Some(ExampleOffer), Some(PendingRead("text/html", true, ToNegotiation)), true, false,
                     ["text/plain"], Some(map[]), None, [])
  {
    assert NextMime(["text/html", "text/plain"], map[]) == Pick("text/html", ["text/plain"]);
  }

  /** The first read's bytes are kept and the second type's read is deferred, with or without a deferred leave. */
  lemma ExampleFirstRead(leaving: bool)
    ensures Step(State(None, None, Some(ExampleOffer), Some(PendingRead("text/html", true, ToNegotiation)), true, leaving,
                       ["text/plain"], Some(map[]), None, []),
                 SyncDone("<b>hi</b>"), ExamplePriority).state
            == State(None, None, Some(ExampleOffer), Some(PendingRead("text/plain", true, ToNegotiation)), true, leaving,
                     [], Some(ExampleHtml), None, [])
  {
    var before := State(None, None, Some(ExampleOffer), Some(PendingRead("text/html", true, ToNegotiation)), true, leaving,
                        ["text/plain"], Some(map[]), None, []);
    var kept := before.(deferredRead := None, receivedData := Some(ExampleHtml));
    assert map[]["text/html" := "<b>hi</b>"] == ExampleHtml;
    assert KeepReceived(before.(deferredRead := None), "text/html", "<b>hi</b>") == kept;
    assert NextMime(["text/plain"], ExampleHtml) == Pick("text/plain", []);
    assert Step(before, SyncDone("<b>hi</b>"), ExamplePriority).state == HandleUnprocessedMimeTypes(kept);
  }

  /** The second read completes the aggregate, which is delivered; a deferred leave follows it. */
  lemma ExampleSecondRead(leaving: bool)
    ensures Step(State(None, None, Some(ExampleOffer), Some(PendingRead("text/plain", true, ToNegotiation)), true, leaving,
                       [], Some(ExampleHtml), None, []),
                 SyncDone("hi"), ExamplePriority).state
            == if leaving then State(None, None, None, None, false, false, [], None, None, [DropData(ExampleBoth), DragLeft])
               else State(None, None, Some(ExampleOffer), None, false, false, [], None, None, [DropData(ExampleBoth)])
  {
    assert ExampleHtml["text/plain" := "hi"] == ExampleBoth;
    assert NextMime([], ExampleBoth) == Pick("", []);
  }

  /** A clipboard paste: the selection offer's pipe yields "hello", which the connection receives. */
  lemma ClipboardExample()
    ensures
      var selected := Step(Step(Initial, DataOfferEvent(Offer(3, {"text/plain"})), []).state,
                           SelectionEvent(Some(3)), []).state;
      var requested := Step(selected, RequestSelection("text/plain"), []).state;
      var read := Step(requested, SyncDone("hello"), []).state;
      && AvailableMimeTypes(selected) == {"text/plain"}
      && requested.deliveries == []
      && read.deliveries == [ClipboardData("text/plain", "hello")] && read.deferredRead.None?
  {
  }
}
