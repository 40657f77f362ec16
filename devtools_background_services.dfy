/**
 * The DevTools background-services recording context, as its unit tests
 * pin it down: per service, recording is switched on by an expiration time
 * in the future and off by a null one; that time is mirrored into the
 * browser client so that it survives a browser restart; events are stored
 * only while the service is recording, in logging order, and can be
 * cleared; observers hear of an event only when it is stored.
 *
 * Time is an integer number of microseconds read from a `Clock` object;
 * the null `base::Time` is `None`.
 */
module DevToolsBackgroundServices {
  import opened Wrappers

  /** A background service, by its protocol enum value. */
  type Service = int

  /** A `base::Time`; `None` is the null time. */
  type Time = Option<int>

  const Day: int := 86_400_000_000

  /**
   * How long recording stays on after it is started. Only its positivity
   * matters to the behaviour modelled here.
   */
  const RecordingDuration: int := 3 * Day

  datatype BackgroundServiceEvent = BackgroundServiceEvent(
    timestamp: int,
    service: Service,
    origin: string,
    serviceWorkerRegistrationId: int,
    eventName: string,
    instanceId: string,
    eventMetadata: map<string, string>)

  /** A call made on the context's observers. */
  datatype Notification =
    | RecordingStateChanged(shouldRecord: bool, service: Service)
    | EventReceived(event: BackgroundServiceEvent)

  /** Events in non-decreasing timestamp order, none later than `bound`. */
  ghost predicate ChronologicalUpTo(events: seq<BackgroundServiceEvent>, bound: int) {
    && (forall i, j :: 0 <= i < j < |events| ==> events[i].timestamp <= events[j].timestamp)
    && (forall i :: 0 <= i < |events| ==> events[i].timestamp <= bound)
  }

  /** A later clock reading bounds the same events. */
  lemma ChronologicalLater(events: seq<BackgroundServiceEvent>, bound: int, later: int)
    requires ChronologicalUpTo(events, bound) && bound <= later
    ensures ChronologicalUpTo(events, later)
  {
  }

  /** The wall clock; it only moves forward. */
  class Clock {
    var now: int

    constructor (start: int)
      ensures now == start
    {
      now := start;
    }

    method Advance(delta: nat)
      modifies this
      ensures now == old(now) + delta
    {
      now := now + delta;
    }
  }

  /** The browser client's store of expiration times, keyed by service. */
  class BrowserClient {
    var expirations: map<Service, Time>

    constructor ()
      ensures expirations == map[]
    {
      expirations := map[];
    }

    /** Overwrites the entry of `service` only. */
    method UpdateDevToolsBackgroundServiceExpiration(service: Service, expirationTime: Time)
      modifies this
      ensures expirations == old(expirations)[service := expirationTime]
      ensures service in expirations && expirations[service] == expirationTime
      ensures forall s :: s != service ==> (s in expirations <==> s in old(expirations))
      ensures forall s :: s != service && s in expirations ==> expirations[s] == old(expirations)[s]
    {
      expirations := expirations[service := expirationTime];
    }

    /** The whole map, every service's entry. */
    method GetDevToolsBackgroundServiceExpirations() returns (m: map<Service, Time>)
      ensures m == expirations
    {
      m := expirations;
    }
  }

  /** Where logged events are kept; it outlives any one context. */
  class EventStorage {
    var events: map<Service, seq<BackgroundServiceEvent>>

    constructor ()
      ensures events == map[]
    {
      events := map[];
    }

    /** The events stored for `service`, oldest first. */
    function Stored(service: Service): seq<BackgroundServiceEvent>
      reads this
    {
      if service in events then events[service] else []
    }
  }

  class Context {
    const client: BrowserClient
    const storage: EventStorage
    const clock: Clock

    var expirationTimes: map<Service, Time>

    /** Every call made on the observers, in order. */
    var notifications: seq<Notification>

    /** Stored events are chronological and none is stamped after the clock. */
    ghost predicate Valid()
      reads this, storage, clock
    {
      forall s :: s in storage.events ==> ChronologicalUpTo(storage.events[s], clock.now)
    }

    /**
     * A context created at browser start-up: it takes over the expiration
     * times the browser client holds, so recording survives a restart.
     */
    constructor (client: BrowserClient, storage: EventStorage, clock: Clock)
      requires forall s :: s in storage.events ==> ChronologicalUpTo(storage.events[s], clock.now)
      ensures Valid()
      ensures this.client == client && this.storage == storage && this.clock == clock
      ensures expirationTimes == client.expirations
      ensures notifications == []
    {
      this.client := client;
      this.storage := storage;
      this.clock := clock;
      expirationTimes := client.expirations;
      notifications := [];
    }

    /** The expiration time of `service`, null when none was ever set. */
    function ExpirationTime(service: Service): (t: Time)
      reads this
      ensures service !in expirationTimes ==> t.None?
      ensures service in expirationTimes ==> t == expirationTimes[service]
    {
      if service in expirationTimes then expirationTimes[service] else None
    }

    /**
     * Recording is on iff the expiration time is set and still in the
     * future: a null time never records, and a set one stops recording
     * once the clock reaches it.
     */
    predicate IsRecording(service: Service): (r: bool)
      reads this, clock
      ensures r ==> ExpirationTime(service).Some?
      ensures ExpirationTime(service).Some? ==> (r <==> clock.now < ExpirationTime(service).value)
    {
      ExpirationTime(service).Some? && clock.now < ExpirationTime(service).value
    }

    /** Sets a future expiration time, mirrors it into the client and tells the observers. */
    method StartRecording(service: Service)
      requires Valid()
      modifies this, client
      ensures Valid()
      ensures expirationTimes == old(expirationTimes)[service := Some(clock.now + RecordingDuration)]
      ensures client.expirations == old(client.expirations)[service := Some(clock.now + RecordingDuration)]
      ensures notifications == old(notifications) + [RecordingStateChanged(true, service)]
      ensures IsRecording(service)
    {
      var expiration := Some(clock.now + RecordingDuration);
      expirationTimes := expirationTimes[service := expiration];
      client.UpdateDevToolsBackgroundServiceExpiration(service, expiration);
      notifications := notifications + [RecordingStateChanged(true, service)];
    }

    /** Clears the expiration time here and in the client and tells the observers. */
    method StopRecording(service: Service)
      requires Valid()
      modifies this, client
      ensures Valid()
      ensures expirationTimes == old(expirationTimes)[service := None]
      ensures client.expirations == old(client.expirations)[service := None]
      ensures notifications == old(notifications) + [RecordingStateChanged(false, service)]
      ensures !IsRecording(service)
    {
      expirationTimes := expirationTimes[service := None];
      client.UpdateDevToolsBackgroundServiceExpiration(service, None);
      notifications := notifications + [RecordingStateChanged(false, service)];
    }

    /**
     * Stores an event stamped with the clock and passes it to the observers
     * when `service` is recording; does nothing otherwise.
     */
    method LogBackgroundServiceEvent(serviceWorkerRegistrationId: int, origin: string, service: Service,
                                     eventName: string, instanceId: string, eventMetadata: map<string, string>)
      requires Valid()
      modifies this`notifications, storage
      ensures Valid()
      ensures var event := BackgroundServiceEvent(old(clock.now), service, origin, serviceWorkerRegistrationId,
                                                  eventName, instanceId, eventMetadata);
        if old(IsRecording(service)) then
          && storage.events == old(storage.events)[service := old(storage.Stored(service)) + [event]]
          && notifications == old(notifications) + [EventReceived(event)]
        else
          && storage.events == old(storage.events)
          && notifications == old(notifications)
    {
      if IsRecording(service) {
        var event := BackgroundServiceEvent(clock.now, service, origin, serviceWorkerRegistrationId,
                                            eventName, instanceId, eventMetadata);
        var stored := storage.Stored(service);
        assert ChronologicalUpTo(stored, clock.now);
        storage.events := storage.events[service := stored + [event]];
        notifications := notifications + [EventReceived(event)];
      }
    }

    /** The events stored for `service`, in logging order and chronological. */
    method GetLoggedBackgroundServiceEvents(service: Service) returns (events: seq<BackgroundServiceEvent>)
      requires Valid()
      ensures events == storage.Stored(service)
      ensures ChronologicalUpTo(events, clock.now)
    {
      events := storage.Stored(service);
    }

    /** Forgets every event stored for `service`; other services keep theirs. */
    method ClearLoggedBackgroundServiceEvents(service: Service)
      requires Valid()
      modifies storage
      ensures Valid()
      ensures storage.events == old(storage.events)[service := []]
    {
      storage.events := storage.events[service := []];
    }
  }

  /** A fresh browser: empty client, empty storage, a context over them. */
  method NewBrowser(start: int) returns (context: Context)
    ensures fresh(context) && fresh(context.client) && fresh(context.storage) && fresh(context.clock)
    ensures context.Valid()
    ensures context.client.expirations == map[] && context.storage.events == map[]
    ensures context.expirationTimes == map[] && context.notifications == []
    ensures context.clock.now == start
  {
    var client := new BrowserClient();
    var storage := new EventStorage();
    var clock := new Clock(start);
    context := new Context(client, storage, clock);
  }

  /** A browser restart: a new context over the same client, storage and clock. */
  method SimulateBrowserRestart(previous: Context) returns (context: Context)
    requires previous.Valid()
    ensures fresh(context) && context.Valid()
    ensures context.client == previous.client && context.storage == previous.storage
    ensures context.clock == previous.clock
    ensures context.expirationTimes == previous.client.expirations
    ensures context.notifications == []
  {
    context := new Context(previous.client, previous.storage, previous.clock);
  }

  /** Logging with recording off stores nothing. */
  method NothingStoredWithRecordingModeOff(service: Service, start: int, swId: int, origin: string,
                                           eventName: string, instanceId: string)
    returns (initially: seq<BackgroundServiceEvent>, afterLogging: seq<BackgroundServiceEvent>)
    ensures initially == [] && afterLogging == []
  {
    var context := NewBrowser(start);
    initially := context.GetLoggedBackgroundServiceEvents(service);
    context.LogBackgroundServiceEvent(swId, origin, service, eventName, instanceId, map["key" := "f1"]);
    context.LogBackgroundServiceEvent(swId, origin, service, eventName, instanceId, map["key" := "f2"]);
    afterLogging := context.GetLoggedBackgroundServiceEvents(service);
  }

  /**
   * While recording, two logged events come back in logging order with
   * their fields intact and non-decreasing timestamps, even when the clock
   * moves between them.
   */
  method GetLoggedEvents(service: Service, start: int, elapsed: nat, swId: int, origin: string,
                         eventName: string, instanceId: string)
    returns (events: seq<BackgroundServiceEvent>)
    requires elapsed < RecordingDuration
    ensures |events| == 2
    ensures forall e :: e in events ==>
              && e.service == service && e.origin == origin && e.serviceWorkerRegistrationId == swId
              && e.eventName == eventName && e.instanceId == instanceId && |e.eventMetadata| == 1
    ensures events[0].eventMetadata == map["key" := "f1"] && events[1].eventMetadata == map["key" := "f2"]
    ensures events[0].timestamp <= events[1].timestamp
  {
    var context := NewBrowser(start);
    context.StartRecording(service);
    context.LogBackgroundServiceEvent(swId, origin, service, eventName, instanceId, map["key" := "f1"]);
    ChronologicalLater(context.storage.Stored(service), context.clock.now, context.clock.now + elapsed);
    context.clock.Advance(elapsed);
    context.LogBackgroundServiceEvent(swId, origin, service, eventName, instanceId, map["key" := "f2"]);
    events := context.GetLoggedBackgroundServiceEvents(service);
  }

  /** Stopping recording keeps the event logged before and ignores the one logged after. */
  method StopRecordingKeepsEarlierEvents(service: Service, start: int, swId: int, origin: string,
                                         eventName: string, instanceId: string)
    returns (initially: seq<BackgroundServiceEvent>, events: seq<BackgroundServiceEvent>)
    ensures initially == []
    ensures |events| == 1 && events[0].eventMetadata == map["key" := "f1"]
  {
    var context := NewBrowser(start);
    context.StartRecording(service);
    initially := context.GetLoggedBackgroundServiceEvents(service);
    context.LogBackgroundServiceEvent(swId, origin, service, eventName, instanceId, map["key" := "f1"]);
    context.StopRecording(service);
    context.LogBackgroundServiceEvent(swId, origin, service, eventName, instanceId, map["key" := "f2"]);
    events := context.GetLoggedBackgroundServiceEvents(service);
  }

  /**
   * The expiration time is null at first, set by starting recording, kept
   * across a restart through the browser client, and null again after
   * stopping, also across a restart.
   */
  method DelegateExpirationTimes(service: Service, start: int)
    returns (initial: Time, started: Time, restarted: Time, stopped: Time, restartedStopped: Time,
             recording: seq<bool>)
    ensures initial.None? && started.Some? && restarted.Some? && stopped.None? && restartedStopped.None?
    ensures recording == [false, true, true, false, false]
  {
    var context := NewBrowser(start);
    initial := context.ExpirationTime(service);
    recording := [context.IsRecording(service)];

    context.StartRecording(service);
    started := context.ExpirationTime(service);
    recording := recording + [context.IsRecording(service)];

    context := SimulateBrowserRestart(context);
    restarted := context.ExpirationTime(service);
    recording := recording + [context.IsRecording(service)];

    context.StopRecording(service);
    stopped := context.ExpirationTime(service);
    recording := recording + [context.IsRecording(service)];

    context := SimulateBrowserRestart(context);
    restartedStopped := context.ExpirationTime(service);
    recording := recording + [context.IsRecording(service)];
  }

  /** An expiration time a week in the past is non-null yet means not recording. */
  method RecordingExpiration(service: Service, start: int)
    returns (before: bool, started: bool, expiration: Time, afterWeek: bool)
    ensures !before && started
    ensures expiration.Some? && !afterWeek
  {
    var context := NewBrowser(start);
    before := context.IsRecording(service);
    context.StartRecording(service);
    started := context.IsRecording(service);
    // The test writes the context's expiration map directly.
    context.expirationTimes := context.expirationTimes[service := Some(context.clock.now - 7 * Day)];
    expiration := context.ExpirationTime(service);
    afterWeek := context.IsRecording(service);
  }

  /** Clearing empties the log of the service. */
  method ClearLoggedEvents(service: Service, start: int, swId: int, origin: string,
                           eventName: string, instanceId: string)
    returns (beforeClear: seq<BackgroundServiceEvent>, afterClear: seq<BackgroundServiceEvent>)
    ensures |beforeClear| == 2 && afterClear == []
  {
    var context := NewBrowser(start);
    context.StartRecording(service);
    context.LogBackgroundServiceEvent(swId, origin, service, eventName, instanceId, map["key" := "f1"]);
    context.LogBackgroundServiceEvent(swId, origin, service, eventName, instanceId, map["key" := "f2"]);
    beforeClear := context.GetLoggedBackgroundServiceEvents(service);
    context.ClearLoggedBackgroundServiceEvents(service);
    afterClear := context.GetLoggedBackgroundServiceEvents(service);
  }

  /** Observers get no event while recording is off and exactly the logged one once it is on. */
  method EventObserverCalled(service: Service, start: int, swId: int, origin: string,
                             eventName: string, instanceId: string)
    returns (whileOff: seq<Notification>, whileOn: seq<Notification>)
    ensures whileOff == []
    ensures |whileOn| == 2 && whileOn[0] == RecordingStateChanged(true, service)
    ensures whileOn[1].EventReceived? && whileOn[1].event.eventMetadata == map["key" := "f2"]
  {
    var context := NewBrowser(start);
    context.LogBackgroundServiceEvent(swId, origin, service, eventName, instanceId, map["key" := "f1"]);
    whileOff := context.notifications;
    context.StartRecording(service);
    context.LogBackgroundServiceEvent(swId, origin, service, eventName, instanceId, map["key" := "f2"]);
    whileOn := context.notifications;
  }
}
