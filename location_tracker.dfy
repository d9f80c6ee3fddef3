/** The device-side reporter (components/LocationTracker.tsx): two refs, `lastSentTime`
    and `watchId`, read and overwritten by the geolocation callbacks and by the effect's
    setup and cleanup. The geolocation service is reduced to the set of live watches,
    each with the profile id its success handler reports for; `addLocationHistory` is
    reduced to the log `sent` of report bodies. */
module LocationTracking {
  import opened Seqs
  import opened ReportThrottle

  /** `GeolocationPositionError.PERMISSION_DENIED`; 2 and 3 are POSITION_UNAVAILABLE
      and TIMEOUT. */
  const PERMISSION_DENIED: int := 1

  /** The signed-in user, as far as the reporter looks at it. */
  datatype User = User(profileId: string, role: string)

  /** The guard of line 15: a user is signed in, has the role `'user'`, and the
      browser offers geolocation. */
  predicate ShouldTrack(user: Option<User>, geolocationAvailable: bool) {
    user.Some? && user.value.role == "user" && geolocationAvailable
  }

  /** JavaScript truthiness of `watchId.current` (`number | null`): a watch id of 0
      counts as no watch. */
  predicate IsWatching(watchId: Option<int>) {
    watchId.Some? && watchId.value != 0
  }

  class LocationTracker {
    var lastSentTime: int
    var watchId: Option<int>
    /** Whether the last effect run returned a cleanup function. */
    var cleanupRegistered: bool
    /** Live watches of the geolocation service and the profile id each one's handler reports for. */
    var watches: map<int, string>
    /** Report bodies handed to `addLocationHistory`, in order. */
    var sent: seq<Report>
    /** Position events handled so far, over all effect runs. */
    ghost var Events: seq<PositionEvent>

    /** The refs are what the throttle makes of the events handled so far. */
    ghost predicate Valid()
      reads this
    {
      && lastSentTime == LastSent(0, Forwarded(0, Events))
      && sent == Reports(0, Events)
    }

    /** Lines 8-9: no watch, `lastSentTime` at 0. */
    constructor ()
      ensures Valid()
      ensures lastSentTime == 0 && watchId == None && !cleanupRegistered
      ensures watches == map[] && sent == [] && Events == []
    {
      lastSentTime, watchId, cleanupRegistered := 0, None, false;
      watches, sent, Events := map[], [], [];
    }

    /** Effect setup (lines 14-43), run after the previous run's cleanup: when the guard
        holds, a watch is opened whose handler reports for the user's profile and its id
        is stored; otherwise nothing happens and no cleanup is returned. */
    method Start(user: Option<User>, geolocationAvailable: bool, newWatch: int)
      requires !cleanupRegistered
      requires newWatch !in watches
      modifies this
      ensures cleanupRegistered == ShouldTrack(user, geolocationAvailable)
      ensures ShouldTrack(user, geolocationAvailable) ==>
        watchId == Some(newWatch) && watches == old(watches)[newWatch := user.value.profileId]
      ensures !ShouldTrack(user, geolocationAvailable) ==>
        watchId == old(watchId) && watches == old(watches)
      ensures lastSentTime == old(lastSentTime) && sent == old(sent) && Events == old(Events)
    {
      if ShouldTrack(user, geolocationAvailable) {
        watchId := Some(newWatch);
        watches := watches[newWatch := user.value.profileId];
        cleanupRegistered := true;
      }
    }

    /** `handleSuccess` (lines 16-27): the event is reported, and `lastSentTime` moved to
        `now`, exactly when more than 30000 ms have passed since the last report; the
        report carries the profile id and the coordinates unchanged. */
    method OnPosition(profileId: string, now: int, latitude: real, longitude: real)
      requires Valid()
      modifies this
      ensures Valid()
      ensures Events == old(Events) + [PositionEvent(profileId, now, latitude, longitude)]
      ensures now - old(lastSentTime) > SEND_INTERVAL ==>
        lastSentTime == now && sent == old(sent) + [Report(profileId, latitude, longitude)]
      ensures now - old(lastSentTime) <= SEND_INTERVAL ==>
        lastSentTime == old(lastSentTime) && sent == old(sent)
      ensures watchId == old(watchId) && watches == old(watches) && cleanupRegistered == old(cleanupRegistered)
    {
      var e := PositionEvent(profileId, now, latitude, longitude);
      ForwardedStep(0, Events, e);
      if now - lastSentTime > SEND_INTERVAL {
        lastSentTime := now;
        sent := sent + [Report(profileId, latitude, longitude)];
      }
      Events := Events + [e];
    }

    /** `handleError` (lines 29-36): a permission-denied error clears a truthy watch and
        forgets its id; any other error, or a falsy id, leaves everything as it was. */
    method OnError(code: int)
      modifies this
      ensures code == PERMISSION_DENIED && IsWatching(old(watchId)) ==>
        watchId == None && watches == old(watches) - {old(watchId).value}
      ensures !(code == PERMISSION_DENIED && IsWatching(old(watchId))) ==>
        watchId == old(watchId) && watches == old(watches)
      ensures lastSentTime == old(lastSentTime) && sent == old(sent) && Events == old(Events)
      ensures cleanupRegistered == old(cleanupRegistered)
    {
      if code == PERMISSION_DENIED && IsWatching(watchId) {
        watches := watches - {watchId.value};
        watchId := None;
      }
    }

    /** The geolocation service calls the success handler of watch `w`; a cleared watch
        delivers nothing. */
    method DeliverPosition(w: int, now: int, latitude: real, longitude: real)
      requires Valid()
      modifies this
      ensures Valid()
      ensures w !in old(watches) ==> sent == old(sent) && lastSentTime == old(lastSentTime) && Events == old(Events)
      ensures w in old(watches) ==> Events == old(Events) + [PositionEvent(old(watches)[w], now, latitude, longitude)]
      ensures watchId == old(watchId) && watches == old(watches) && cleanupRegistered == old(cleanupRegistered)
    {
      if w in watches {
        OnPosition(watches[w], now, latitude, longitude);
      }
    }

    /** The geolocation service calls the error handler of watch `w`; a cleared watch
        delivers nothing. */
    method DeliverError(w: int, code: int)
      modifies this
      ensures w !in old(watches) ==> watchId == old(watchId) && watches == old(watches)
      ensures w in old(watches) && code == PERMISSION_DENIED && IsWatching(old(watchId)) ==>
        watchId == None && watches == old(watches) - {old(watchId).value}
      ensures w in old(watches) && !(code == PERMISSION_DENIED && IsWatching(old(watchId))) ==>
        watchId == old(watchId) && watches == old(watches)
      ensures lastSentTime == old(lastSentTime) && sent == old(sent) && Events == old(Events)
      ensures cleanupRegistered == old(cleanupRegistered)
    {
      if w in watches {
        OnError(code);
      }
    }

    /** The cleanup returned by a run that started tracking (lines 46-50): a truthy
        `watchId` is cleared. The ref itself keeps its value. */
    method Teardown()
      modifies this
      ensures !cleanupRegistered
      ensures old(cleanupRegistered) && IsWatching(old(watchId)) ==> watches == old(watches) - {old(watchId).value}
      ensures !(old(cleanupRegistered) && IsWatching(old(watchId))) ==> watches == old(watches)
      ensures watchId == old(watchId)
      ensures lastSentTime == old(lastSentTime) && sent == old(sent) && Events == old(Events)
    {
      if cleanupRegistered && IsWatching(watchId) {
        watches := watches - {watchId.value};
      }
      cleanupRegistered := false;
    }
  }

  /** Once a permission-denied error has cleared the stored watch, a position event
      that watch would have delivered is not reported. */
  method PermissionDeniedSilencesWatch(t: LocationTracker, now: int, latitude: real, longitude: real)
    requires t.Valid() && IsWatching(t.watchId)
    modifies t
    ensures t.Valid() && old(t.watchId).value !in t.watches
    ensures t.sent == old(t.sent) && t.lastSentTime == old(t.lastSentTime)
  {
    var w := t.watchId.value;
    t.OnError(PERMISSION_DENIED);
    t.DeliverPosition(w, now, latitude, longitude);
  }
}
