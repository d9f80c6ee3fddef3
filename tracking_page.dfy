/** The state of the operator tracking page (pages/admin/AdminTrackingPage.tsx) and the
    handlers and effect steps that change it. Fetches are inputs: their results arrive
    through `LocationsFetched`, `LocationsFetchFailed`, `PollDelivered` and
    `ResearchersFetched`. The environment's interval timers are the ghost set
    `LiveTimers`; a timer handle is whatever `setInterval` returned. Polls that a timer
    has fired and whose fetch has not settled yet are the ghost multiset `PendingPolls`:
    clearing the timer does not cancel them. The first fetches of effect runs that have
    not settled yet are counted by the ghost `PendingFetches`; a fetch started before a
    date change is not cancelled either. */
module TrackingPageState {
  import opened Seqs
  import opened TrackingTypes
  import opened LatestPositions
  import opened TrackingViews

  /** Period of the location poll, in milliseconds (line 74). */
  const POLL_PERIOD: int := 20000

  /** JavaScript truthiness of the effect's `intervalId` (`number | undefined`). */
  predicate IsArmed(intervalId: Option<int>) {
    intervalId.Some? && intervalId.value != 0
  }

  class TrackingPage {
    var researchers: seq<Researcher>
    var locations: seq<Sample>
    var isLoading: bool
    var selectedResearcherId: Option<string>
    var selectedDate: string
    /** The `intervalId` of the current run of the location effect (lines 51-83). */
    var intervalId: Option<int>
    /** Interval timers that are still running. */
    ghost var LiveTimers: set<int>
    /** Fired polls still awaiting `getLocationsForDate`, by the timer that fired them. */
    ghost var PendingPolls: multiset<int>
    /** First fetches of effect runs (line 67) still awaiting `getLocationsForDate`. */
    ghost var PendingFetches: nat

    /** The current effect run's interval, when it has one, is still running. */
    ghost predicate Valid()
      reads this
    {
      intervalId.Some? ==> intervalId.value in LiveTimers
    }

    /** Lines 11-15: nothing fetched yet, loading, nothing selected, today's date. */
    constructor (today: string)
      ensures researchers == [] && locations == [] && isLoading
      ensures selectedResearcherId == None && selectedDate == today
      ensures intervalId == None && LiveTimers == {} && PendingPolls == multiset{} && PendingFetches == 0
      ensures Valid()
    {
      researchers, locations, isLoading := [], [], true;
      selectedResearcherId, selectedDate := None, today;
      intervalId, LiveTimers, PendingPolls, PendingFetches := None, {}, multiset{}, 0;
    }

    /** `latestLocations` (lines 85-93). */
    function Latest(): seq<Sample>
      reads this
    {
      LatestValues(locations)
    }

    /** The sidebar as rendered (lines 155-190). */
    function SidebarView(): Sidebar
      reads this
    {
      SidebarOf(isLoading, locations, researchers, Latest(), selectedResearcherId)
    }

    /** The route layer after the route effect (lines 117-130). */
    function RouteView(mapReady: bool): RouteSync
      reads this
    {
      SyncRoute(mapReady, selectedResearcherId, locations)
    }

    /** Lines 41-42: the fetched roster is kept filtered to active researchers. A failed
        fetch (lines 43-45) changes nothing and needs no step. */
    method ResearchersFetched(fetched: seq<Researcher>)
      modifies this
      ensures researchers == ActiveRoster(fetched)
      ensures locations == old(locations) && isLoading == old(isLoading)
      ensures selectedResearcherId == old(selectedResearcherId) && selectedDate == old(selectedDate)
      ensures intervalId == old(intervalId) && LiveTimers == old(LiveTimers) && PendingPolls == old(PendingPolls) && PendingFetches == old(PendingFetches)
    {
      researchers := ActiveRoster(fetched);
    }

    /** Setup of the location effect (lines 52-75), run after the previous run's cleanup:
        it starts a fetch (the spinner flag goes up) and arms a 20 s interval only when
        the selected date is today. */
    method StartLocationEffect(today: string, timer: int)
      requires intervalId == None
      requires timer !in LiveTimers
      modifies this
      ensures Valid()
      ensures isLoading
      ensures intervalId == if selectedDate == today then Some(timer) else None
      ensures LiveTimers == if selectedDate == today then old(LiveTimers) + {timer} else old(LiveTimers)
      ensures researchers == old(researchers) && locations == old(locations)
      ensures selectedResearcherId == old(selectedResearcherId) && selectedDate == old(selectedDate)
      ensures PendingPolls == old(PendingPolls) && PendingFetches == old(PendingFetches) + 1
    {
      isLoading := true;
      PendingFetches := PendingFetches + 1;
      if selectedDate == today {
        intervalId := Some(timer);
        LiveTimers := LiveTimers + {timer};
      }
    }

    /** Cleanup of the location effect (lines 78-82): a truthy handle is cleared; the
        run's `intervalId` goes away with its closure. */
    method StopLocationEffect()
      modifies this
      ensures Valid() && intervalId == None
      ensures LiveTimers == if IsArmed(old(intervalId)) then old(LiveTimers) - {old(intervalId).value} else old(LiveTimers)
      ensures IsArmed(old(intervalId)) ==> old(intervalId).value !in LiveTimers
      ensures researchers == old(researchers) && locations == old(locations) && isLoading == old(isLoading)
      ensures selectedResearcherId == old(selectedResearcherId) && selectedDate == old(selectedDate)
      ensures PendingPolls == old(PendingPolls) && PendingFetches == old(PendingFetches)
    {
      if IsArmed(intervalId) {
        LiveTimers := LiveTimers - {intervalId.value};
      }
      intervalId := None;
    }

    /** A pending first fetch of an effect run resolved (lines 57-58, 62). The response
        is applied whatever date is selected now. */
    method LocationsFetched(data: seq<Sample>)
      requires PendingFetches > 0
      modifies this
      ensures PendingFetches == old(PendingFetches) - 1
      ensures locations == data && !isLoading
      ensures researchers == old(researchers)
      ensures selectedResearcherId == old(selectedResearcherId) && selectedDate == old(selectedDate)
      ensures intervalId == old(intervalId) && LiveTimers == old(LiveTimers) && PendingPolls == old(PendingPolls)
    {
      locations := data;
      isLoading := false;
      PendingFetches := PendingFetches - 1;
    }

    /** A pending first fetch of an effect run failed (lines 59-62): the samples stay. */
    method LocationsFetchFailed()
      requires PendingFetches > 0
      modifies this
      ensures PendingFetches == old(PendingFetches) - 1
      ensures !isLoading
      ensures locations == old(locations) && researchers == old(researchers)
      ensures selectedResearcherId == old(selectedResearcherId) && selectedDate == old(selectedDate)
      ensures intervalId == old(intervalId) && LiveTimers == old(LiveTimers) && PendingPolls == old(PendingPolls)
    {
      isLoading := false;
      PendingFetches := PendingFetches - 1;
    }

    /** A running interval fires (lines 71-72): its callback starts a fetch for the date
        its closure captured. Nothing visible changes yet. */
    method PollFired(timer: int)
      requires timer in LiveTimers
      modifies this
      ensures PendingPolls == old(PendingPolls) + multiset{timer}
      ensures locations == old(locations) && isLoading == old(isLoading) && researchers == old(researchers)
      ensures selectedResearcherId == old(selectedResearcherId) && selectedDate == old(selectedDate)
      ensures intervalId == old(intervalId) && LiveTimers == old(LiveTimers) && PendingFetches == old(PendingFetches)
    {
      PendingPolls := PendingPolls + multiset{timer};
    }

    /** A fired poll resolved (line 73): the samples are replaced and the loading flag is
        left alone. The timer may have been cleared since it fired: the response is
        applied all the same. */
    method PollDelivered(timer: int, data: seq<Sample>)
      requires timer in PendingPolls
      modifies this
      ensures PendingPolls == old(PendingPolls) - multiset{timer}
      ensures locations == data
      ensures isLoading == old(isLoading) && researchers == old(researchers)
      ensures selectedResearcherId == old(selectedResearcherId) && selectedDate == old(selectedDate)
      ensures intervalId == old(intervalId) && LiveTimers == old(LiveTimers) && PendingFetches == old(PendingFetches)
    {
      locations := data;
      PendingPolls := PendingPolls - multiset{timer};
    }

    /** A fired poll's fetch rejected (line 72): the callback has no handler, so the
        rejection goes unhandled and no state changes. */
    method PollFailed(timer: int)
      requires timer in PendingPolls
      modifies this
      ensures PendingPolls == old(PendingPolls) - multiset{timer}
      ensures locations == old(locations) && isLoading == old(isLoading) && researchers == old(researchers)
      ensures selectedResearcherId == old(selectedResearcherId) && selectedDate == old(selectedDate)
      ensures intervalId == old(intervalId) && LiveTimers == old(LiveTimers) && PendingFetches == old(PendingFetches)
    {
      PendingPolls := PendingPolls - multiset{timer};
    }

    /** The date input's handler (lines 148-151): the new date is taken and the selection
        is cleared, so the route layer is emptied on the next sync. */
    method ChangeDate(date: string)
      modifies this
      ensures selectedDate == date && selectedResearcherId == None
      ensures RouteView(true) == RouteRedrawn(None, None)
      ensures researchers == old(researchers) && locations == old(locations) && isLoading == old(isLoading)
      ensures intervalId == old(intervalId) && LiveTimers == old(LiveTimers) && PendingPolls == old(PendingPolls) && PendingFetches == old(PendingFetches)
    {
      selectedDate := date;
      selectedResearcherId := None;
    }

    /** A change of date as the page goes through it: the handler, then, when the date
        really changed, the old effect run's cleanup and a new run's setup. */
    method SwitchDate(date: string, today: string, timer: int)
      requires Valid()
      requires timer !in LiveTimers
      modifies this
      ensures Valid()
      ensures selectedDate == date && selectedResearcherId == None
      ensures date != old(selectedDate) ==>
        && isLoading
        && (IsArmed(old(intervalId)) ==> old(intervalId).value !in LiveTimers)
        && intervalId == (if date == today then Some(timer) else None)
        && LiveTimers ==
             (if IsArmed(old(intervalId)) then old(LiveTimers) - {old(intervalId).value} else old(LiveTimers))
             + (if date == today then {timer} else {})
      ensures date != old(selectedDate) ==> PendingFetches == old(PendingFetches) + 1
      ensures date == old(selectedDate) ==>
        && intervalId == old(intervalId) && LiveTimers == old(LiveTimers) && isLoading == old(isLoading)
        && PendingFetches == old(PendingFetches)
      ensures researchers == old(researchers) && locations == old(locations) && PendingPolls == old(PendingPolls)
    {
      var previous := selectedDate;
      ChangeDate(date);
      if date != previous {
        StopLocationEffect();
        StartLocationEffect(today, timer);
      }
    }

    /** A poll fired while the selected date was today can settle after the user has
        moved to another date and the timer has been cleared. When it settles before the
        new day's fetch, its samples are applied although another date is selected; the
        spinner flag raised for the new day is still up and that day's fetch is still
        pending, so its response will replace them. */
    method StalePollAfterDateChange(today: string, past: string, t: int, t2: int, data: seq<Sample>)
      requires Valid() && intervalId == None && selectedDate == today
      requires past != today && t != 0
      requires t !in LiveTimers && t2 !in LiveTimers && t2 != t
      modifies this
      ensures selectedDate == past && locations == data && isLoading
      ensures t !in LiveTimers && intervalId == None
      ensures PendingFetches == old(PendingFetches) + 2
    {
      StartLocationEffect(today, t);
      PollFired(t);
      SwitchDate(past, today, t2);
      PollDelivered(t, data);
    }

    /** The same race when the new day's fetch settles first: its samples are then
        replaced by the stale poll's and the spinner flag is down. No interval runs for
        a past date, so no later poll corrects them; the only fetch still pending is the
        one started for today before the switch. */
    method StalePollOverridesPastDay(today: string, past: string, t: int, t2: int,
                                     pastData: seq<Sample>, todayData: seq<Sample>)
      requires Valid() && intervalId == None && selectedDate == today
      requires past != today && t != 0
      requires t !in LiveTimers && t2 !in LiveTimers && t2 != t
      modifies this
      ensures selectedDate == past && locations == todayData && !isLoading
      ensures intervalId == None && LiveTimers == old(LiveTimers) && PendingPolls == old(PendingPolls)
      ensures PendingFetches == old(PendingFetches) + 1
    {
      StartLocationEffect(today, t);
      PollFired(t);
      SwitchDate(past, today, t2);
      LocationsFetched(pastData);
      PollDelivered(t, todayData);
    }

    /** A click on a researcher in the sidebar (line 169). */
    method SelectResearcher(id: string)
      modifies this
      ensures selectedResearcherId == Some(id)
      ensures researchers == old(researchers) && locations == old(locations) && isLoading == old(isLoading)
      ensures selectedDate == old(selectedDate)
      ensures intervalId == old(intervalId) && LiveTimers == old(LiveTimers) && PendingPolls == old(PendingPolls) && PendingFetches == old(PendingFetches)
    {
      selectedResearcherId := Some(id);
    }

    /** "Ver todos" (line 197): the selection is cleared, so the route layer is emptied and
        the markers are fitted again whenever there are any. */
    method ShowAll()
      modifies this
      ensures selectedResearcherId == None
      ensures RouteView(true) == RouteRedrawn(None, None)
      ensures !HasSelection(selectedResearcherId)
      ensures researchers == old(researchers) && locations == old(locations) && isLoading == old(isLoading)
      ensures selectedDate == old(selectedDate)
      ensures intervalId == old(intervalId) && LiveTimers == old(LiveTimers) && PendingPolls == old(PendingPolls) && PendingFetches == old(PendingFetches)
    {
      selectedResearcherId := None;
    }
  }
}
