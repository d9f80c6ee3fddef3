# Researcher tracking: a verified model of the operator map and the device reporter

This project models the two pieces of sequential logic in the researcher-tracking
feature of the field-survey application:

- **The operator tracking page** (`pages/admin/AdminTrackingPage.tsx`). It loads the
  active researchers and the day's position samples and polls the samples every 20 s
  while the selected date is today. It reduces the samples to one latest position per
  researcher, draws one marker per latest position whose researcher is in the roster,
  and draws the selected researcher's route. The sidebar labels each researcher
  "Online" (with the time of their newest sample) or "Offline".
- **The device-side reporter** (`components/LocationTracker.tsx`). It watches the
  browser's position feed and forwards a position to the backend only when more than
  30 000 ms have passed since the last one it forwarded. It stops the watch on a
  permission-denied error and releases it on cleanup.

Modules, one per concern:

| file | module | what it holds |
|---|---|---|
| `seqs.dfy` | `Seqs` | `Option`; `Filter`, `Find`, `FindIndex` (JavaScript's `filter`, `find`, `findIndex`); `IsSubsequence`, `Distinct` |
| `tracking_types.dfy` | `TrackingTypes` | `Researcher`, `Sample` (a `ResearcherLocation`), `LatLng` |
| `latest_positions.dfy` | `LatestPositions` | the `latestLocations` reducer: a loop over a dictionary, proved against the prefix fold `LatestById`/`FirstSeen` |
| `tracking_views.dfy` | `TrackingViews` | roster filter, route, marker and route synchronisation, status labels, sidebar |
| `tracking_page.dfy` | `TrackingPageState` | class `TrackingPage`: the page's state and each handler and effect step |
| `report_throttle.dfy` | `ReportThrottle` | the throttle as a function `Forwarded` of the event sequence, with its lemmas |
| `location_tracker.dfy` | `LocationTracking` | class `LocationTracker`: `lastSentTime`, `watchId` and the callbacks |

Modelling choices:

- Timestamps are integers (milliseconds). `Date.now()` and "today" are parameters.
- Latitude and longitude are `real` values that are only copied.
- The map surface is reduced to what ends up on it. The marker layer is the list of
  markers and the bounds the viewport is fitted to (`MarkerSync`). The route layer is
  the polyline and its fit (`RouteSync`). "Map not mounted yet" (lines 96 and 118) is
  the flag `mapReady`.
- JavaScript truthiness is written out where the code relies on it. The empty string
  counts as no selection (`HasSelection`). An interval or watch id of 0 counts as no
  handle (`IsArmed`, `IsWatching`).
- Fetch results and timer or sensor callbacks are calls on the classes:
  `LocationsFetched`, `PollDelivered`, `DeliverPosition` and so on.
- Live interval timers are the ghost set `TrackingPage.LiveTimers`. Live geolocation
  watches are the map `LocationTracker.watches`, which gives the profile id each
  watch's handler reports for. Calls to `addLocationHistory` are the log
  `LocationTracker.sent`.
- Fetches in flight are ghost state too: `TrackingPage.PendingFetches` counts the
  effect runs' first fetches, and `TrackingPage.PendingPolls` holds the fired polls.
  A response can only arrive for a fetch that was started, and at most once.
- Effects that React re-runs when a dependency changes are explicit setup and cleanup
  methods. Setup requires that the previous run's cleanup has already happened, which
  is the order React guarantees. It also requires that a new timer or watch handle is
  not already live.

Behaviour of the code that the model keeps as written:

- There is no recency threshold. "Online" means that the day has at least one sample
  for the researcher (line 175).
- The route is a plain order-preserving filter of the samples. It is not sorted by
  timestamp (line 123).
- Poll and fetch responses are applied whatever date is selected when they arrive.
  Stale responses are not discarded (lines 57-58, 72-73). Clearing the interval does
  not cancel a poll already in flight. After a switch from today to another date, a
  late poll has one of two outcomes, depending on when it settles:
  - before the new day's fetch: today's samples are shown under the other date while
    the spinner flag is still up, until that fetch replaces them
    (`StalePollAfterDateChange`);
  - after the new day's fetch: today's samples replace the other day's, the flag is
    down, and no poll runs for that date to correct them (`StalePollOverridesPastDay`).
- There is no separate clock-tick timer. The only interval is the 20 s location poll
  (lines 69-75).
- When samples of one researcher share the greatest timestamp, the strict `>` keeps
  the first one met (line 88).

## Model

| member | source | states |
|---|---|---|
| `LatestPositions.LatestLocations` | pages/admin/AdminTrackingPage.tsx:85-93 | the loop over the samples followed by `Object.values` yields exactly the fold's values in key order; every result is an input sample and no researcher appears twice |
| `LatestPositions.LatestKeys` | pages/admin/AdminTrackingPage.tsx:86-92 | the dictionary has an entry for exactly the researcher ids present in the input; its key order lists each of them once |
| `LatestPositions.LatestIsFirstNewest` | pages/admin/AdminTrackingPage.tsx:88-89 | the kept sample of a researcher is an input sample with the greatest timestamp among that researcher's samples, and every earlier sample of theirs is strictly older: strict `>` keeps the first of several maxima |
| `LatestPositions.FirstNewestIsUnique` | pages/admin/AdminTrackingPage.tsx:88 | at most one index satisfies "first sample with the greatest timestamp", so the kept sample is determined |
| `LatestPositions.LatestValuesSpec` | pages/admin/AdminTrackingPage.tsx:85-93 | `latestLocations` lists distinct researchers; a researcher is listed iff the input has a sample of theirs; each listed sample is an input sample and that researcher's first newest one |
| `TrackingViews.ActiveRoster` | pages/admin/AdminTrackingPage.tsx:42 | the roster holds exactly the fetched researchers with `isActive`, in their original order (a subsequence) |
| `TrackingViews.ResearcherOf` | pages/admin/AdminTrackingPage.tsx:103 | the lookup finds a roster researcher with the id when there is one, and finds nothing iff no roster researcher has it |
| `TrackingViews.Route` | pages/admin/AdminTrackingPage.tsx:123 | the route holds exactly the samples of the selected id, as a subsequence of the input in input order |
| `TrackingViews.RouteAppend` | pages/admin/AdminTrackingPage.tsx:123 | the route of two concatenated batches is the first batch's route followed by the second's: input order, no sorting |
| `TrackingViews.SyncRoute` | pages/admin/AdminTrackingPage.tsx:117-130 | nothing happens when the map is not mounted; otherwise the layer is cleared, and a polyline is drawn and fitted iff a truthy selection has samples; the polyline is the route's positions; without a polyline there is no fit |
| `TrackingViews.MarkersArePaired` | pages/admin/AdminTrackingPage.tsx:102-110 | the k-th marker is the k-th latest sample whose researcher is in the roster, named after that researcher; there are never more markers than latest samples |
| `TrackingViews.MarkerIffActive` | pages/admin/AdminTrackingPage.tsx:42-104 | with the roster filtered to active researchers, a latest sample gets a marker iff some active fetched researcher has its id |
| `TrackingViews.SomeMarkerIffPaired` | pages/admin/AdminTrackingPage.tsx:104-111 | at least one marker is drawn iff some latest sample belongs to a roster researcher |
| `TrackingViews.SyncMarkers` | pages/admin/AdminTrackingPage.tsx:95-115 | nothing happens when the map is not mounted; otherwise the marker layer becomes exactly the paired markers, and the viewport is fitted to their positions iff there is at least one and no truthy selection |
| `TrackingViews.StatusOf` | pages/admin/AdminTrackingPage.tsx:165-179 | the label is Online iff a latest sample has the researcher's id, and the time it shows is that sample's |
| `TrackingViews.StatusReflectsSamples` | pages/admin/AdminTrackingPage.tsx:165-176 | on the page's latest samples, a researcher is Online iff the day has a sample of theirs, and the time shown is their greatest sample time |
| `TrackingViews.SidebarOf` | pages/admin/AdminTrackingPage.tsx:155-190 | the heading counts the latest samples; the spinner shows iff loading with no samples; an empty roster shows the notice; otherwise there is one line per roster researcher with its status, highlighted iff it is the selected one |
| `TrackingPageState.TrackingPage.constructor` | pages/admin/AdminTrackingPage.tsx:11-15 | the page starts with nothing fetched, loading, nothing selected, today's date and no interval |
| `TrackingPageState.TrackingPage.ResearchersFetched` | pages/admin/AdminTrackingPage.tsx:38-48 | the fetched roster is stored filtered to active researchers; nothing else changes |
| `TrackingPageState.TrackingPage.StartLocationEffect` | pages/admin/AdminTrackingPage.tsx:51-76 | the effect's setup starts one more fetch, raises the loading flag and arms a new interval iff the selected date equals today |
| `TrackingPageState.TrackingPage.StopLocationEffect` | pages/admin/AdminTrackingPage.tsx:77-82 | cleanup stops a truthy interval, which is then no longer running, and leaves no armed interval |
| `TrackingPageState.TrackingPage.LocationsFetched` | pages/admin/AdminTrackingPage.tsx:54-64 | a pending first fetch that resolves replaces the samples wholesale and lowers the loading flag, whatever the selected date is now |
| `TrackingPageState.TrackingPage.LocationsFetchFailed` | pages/admin/AdminTrackingPage.tsx:59-63 | a pending first fetch that fails keeps the previous samples and lowers the loading flag |
| `TrackingPageState.TrackingPage.PollFired` | pages/admin/AdminTrackingPage.tsx:71-72 | only a running interval fires; firing starts a pending poll and changes nothing visible |
| `TrackingPageState.TrackingPage.PollDelivered` | pages/admin/AdminTrackingPage.tsx:72-74 | a pending poll's response replaces the samples and leaves the loading flag alone, even when its timer has been cleared since it fired |
| `TrackingPageState.TrackingPage.PollFailed` | pages/admin/AdminTrackingPage.tsx:71-73 | a rejected poll has no handler and changes no page state; it is no longer pending |
| `TrackingPageState.TrackingPage.StalePollAfterDateChange` | pages/admin/AdminTrackingPage.tsx:51-83 | a poll fired on today's date that settles after a switch to another date, but before the new date's fetch, still replaces the samples; the loading flag raised for the new date stays up, the new date's fetch is still pending, and the old timer is no longer running |
| `TrackingPageState.TrackingPage.StalePollOverridesPastDay` | pages/admin/AdminTrackingPage.tsx:51-83 | when the new date's fetch settles first, the stale poll's samples replace it with the loading flag down, and no interval is armed for the new date |
| `TrackingPageState.TrackingPage.ChangeDate` | pages/admin/AdminTrackingPage.tsx:148-151 | changing the date sets it and clears the selection, so the route layer is emptied |
| `TrackingPageState.TrackingPage.SwitchDate` | pages/admin/AdminTrackingPage.tsx:51-83 | a real date change clears the selection, raises the loading flag, stops the old truthy interval and arms a new one iff the new date is today, giving the running timers exactly; re-entering the same date changes no timer and not the loading flag |
| `TrackingPageState.TrackingPage.SelectResearcher` | pages/admin/AdminTrackingPage.tsx:169 | clicking a researcher selects its id and changes nothing else |
| `TrackingPageState.TrackingPage.ShowAll` | pages/admin/AdminTrackingPage.tsx:195-201 | "Ver todos" clears the selection; the route layer is then emptied and the marker fit is no longer suppressed |
| `ReportThrottle.ForwardedAreEvents` | components/LocationTracker.tsx:16-25 | every forwarded event is one of the events received |
| `ReportThrottle.ForwardedAreSpaced` | components/LocationTracker.tsx:9-19 | the first report is more than 30000 ms after the initial `lastSentTime`; consecutive reports are more than 30000 ms apart, whatever the order of the event times |
| `ReportThrottle.ForwardedPrefix` | components/LocationTracker.tsx:16-27 | reports already sent are never retracted: the reports for a prefix of the events are a prefix of the reports for all of them |
| `ReportThrottle.FirstEventRule` | components/LocationTracker.tsx:9-19 | the first event is the first report iff its time is more than 30000 ms after the initial `lastSentTime` (0 on mount) |
| `ReportThrottle.RateBound` | components/LocationTracker.tsx:12-19 | events within a span of `hi - lo` ms give at most `(hi - lo) / 30000 + 1` reports |
| `LocationTracking.LocationTracker.constructor` | components/LocationTracker.tsx:8-9 | the refs start with no watch, `lastSentTime` 0 and nothing sent |
| `LocationTracking.LocationTracker.Start` | components/LocationTracker.tsx:14-43 | a watch is opened and its id stored iff a user with role `'user'` exists and geolocation is available; the watch's handler reports for that user's profile |
| `LocationTracking.LocationTracker.OnPosition` | components/LocationTracker.tsx:16-27 | a report is sent iff `now - lastSentTime > 30000`; it carries the profile id and the coordinates unchanged and sets `lastSentTime` to `now`; a suppressed event changes nothing; the refs stay equal to the throttle function of all events |
| `LocationTracking.LocationTracker.OnError` | components/LocationTracker.tsx:29-36 | a permission-denied error with a truthy `watchId` clears that watch and nulls the ref; any other code, or a watch id of 0, changes nothing |
| `LocationTracking.LocationTracker.DeliverPosition` | components/LocationTracker.tsx:39-43 | only a live watch delivers positions to its handler; a cleared watch sends nothing |
| `LocationTracking.LocationTracker.DeliverError` | components/LocationTracker.tsx:29-43 | an error delivered by a live watch runs the error handler: permission-denied with a truthy stored id clears exactly that watch and nulls the ref, any other error or a falsy id changes nothing; a cleared watch delivers nothing |
| `LocationTracking.LocationTracker.Teardown` | components/LocationTracker.tsx:45-50 | the cleanup of a run that started tracking clears a truthy `watchId`; the ref keeps its value |
| `LocationTracking.PermissionDeniedSilencesWatch` | components/LocationTracker.tsx:32-35 | after a permission-denied error, a position from the cleared watch is not reported |

## Left out

- Leaflet is not modelled: the map object, tile layer, layer groups, marker and polyline
  objects, popup HTML and `fitBounds` padding (lines 7-8, 22-35, 105-107, 126). Only the
  drawn content and the fit targets are modelled.
- React machinery is not modelled: `useState`, `useRef`, `useMemo`, render scheduling and
  JSX layout. Effects are explicit method calls, and the derived views are functions of
  the state.
- `getResearchers`, `getLocationsForDate` and `addLocationHistory` are I/O. Their results
  are method arguments, and sent reports are the `sent` log. The unhandled rejection of
  a failed poll (lines 71-73) is not reported anywhere; `PollFailed` only retires it.
- `Date` parsing, `toISOString` and `toLocaleTimeString` are formatting. A popup or label
  carries the raw timestamp. Comparisons on invalid dates (NaN) are not modelled.
- `console.warn` and `console.error` logging is left out.
- `watchPosition` options (accuracy, timeout, maximum age) and the sensor itself are
  left out. Events and error codes are inputs.
- `LatestPositions.LatestLocations` lists the kept samples in the order their researcher
  ids were first inserted. JavaScript enumerates integer-like keys (such as `"42"`)
  first, in ascending numeric order, and the model does not reproduce that. Ids that
  name a property every object inherits are not treated as special either: `__proto__`,
  `constructor`, `toString`, `valueOf`, `hasOwnProperty` and the other members of
  `Object.prototype`. For such an id `!latest[id]` at line 88 is false (the inherited
  member is truthy), and comparing with the missing `timestamp` gives an invalid date,
  so the test fails and the researcher's samples are never stored: in the code they
  get no marker and show as Offline, whereas `Absorb` stores them like any other id.
- Time arithmetic uses unbounded integers. `Date.now()` values are exact in JavaScript
  numbers below 2^53, so no rounding is modelled.
