/** The throttle of the device-side reporter (components/LocationTracker.tsx, lines
    9-27) as a function of the position events it is given: an event is forwarded when
    more than `SEND_INTERVAL` milliseconds have passed since the last forwarded one
    (or since the initial `lastSentTime`). */
module ReportThrottle {

  /** Minimum time between two reports, in milliseconds (line 12). */
  const SEND_INTERVAL: int := 30000

  /** A position event as the success handler sees it: the profile id of the user its
      closure captured, the clock reading `Date.now()`, and the coordinates. */
  datatype PositionEvent = PositionEvent(profileId: string, time: int, latitude: real, longitude: real)

  /** The body handed to `addLocationHistory` (lines 21-25). */
  datatype Report = Report(researcherId: string, latitude: real, longitude: real)

  function ReportOf(e: PositionEvent): Report {
    Report(e.profileId, e.latitude, e.longitude)
  }

  /** The value of `lastSentTime` once `forwarded` have been sent, starting from `init`. */
  function LastSent(init: int, forwarded: seq<PositionEvent>): int {
    if forwarded == [] then init else forwarded[|forwarded| - 1].time
  }

  /** The events the handler forwards, in order, when it is given `events` one after the
      other with `lastSentTime` starting at `init`. */
  function Forwarded(init: int, events: seq<PositionEvent>): seq<PositionEvent>
    decreases |events|
  {
    if events == [] then []
    else
      var prior := Forwarded(init, events[..|events| - 1]);
      var e := events[|events| - 1];
      if e.time - LastSent(init, prior) > SEND_INTERVAL then prior + [e] else prior
  }

  /** The reports sent for `events`. */
  function Reports(init: int, events: seq<PositionEvent>): seq<Report> {
    var f := Forwarded(init, events);
    seq(|f|, k requires 0 <= k < |f| => ReportOf(f[k]))
  }

  /** Giving one more event forwards it exactly when it is more than `SEND_INTERVAL`
      after the last send, and otherwise changes nothing. */
  lemma ForwardedStep(init: int, events: seq<PositionEvent>, e: PositionEvent)
    ensures var prior := Forwarded(init, events);
      Forwarded(init, events + [e]) ==
        if e.time - LastSent(init, prior) > SEND_INTERVAL then prior + [e] else prior
  {
    assert (events + [e])[..|events|] == events;
  }

  /** Every forwarded event is one of the given events. */
  lemma {:induction false} ForwardedAreEvents(init: int, events: seq<PositionEvent>)
    ensures forall e :: e in Forwarded(init, events) ==> e in events
    decreases |events|
  {
    if events != [] {
      var prefix := events[..|events| - 1];
      ForwardedAreEvents(init, prefix);
      assert forall e :: e in prefix ==> e in events;
    }
  }

  /** The first report comes more than `SEND_INTERVAL` after `init`, and any two
      consecutive reports are more than `SEND_INTERVAL` apart. No ordering of the event
      times is needed for this. */
  lemma {:induction false} ForwardedAreSpaced(init: int, events: seq<PositionEvent>)
    ensures var f := Forwarded(init, events);
      && (|f| > 0 ==> f[0].time - init > SEND_INTERVAL)
      && (forall k :: 0 <= k < |f| - 1 ==> f[k + 1].time - f[k].time > SEND_INTERVAL)
    decreases |events|
  {
    if events != [] {
      ForwardedAreSpaced(init, events[..|events| - 1]);
    }
  }

  /** Reports once sent stay sent: what is forwarded for a prefix of the events is a
      prefix of what is forwarded for all of them. */
  lemma {:induction false} ForwardedPrefix(init: int, events: seq<PositionEvent>, n: nat)
    requires n <= |events|
    ensures var f := Forwarded(init, events[..n]);
      |f| <= |Forwarded(init, events)| && f == Forwarded(init, events)[..|f|]
    decreases |events| - n
  {
    if n < |events| {
      ForwardedPrefix(init, events, n + 1);
      assert events[..n + 1][..n] == events[..n];
    } else {
      assert events[..n] == events;
    }
  }

  /** The first event is reported exactly when its time is more than `SEND_INTERVAL`
      after `init`; with `lastSentTime` starting at 0, that is when the clock reads more
      than 30000. */
  lemma {:induction false} FirstEventRule(init: int, events: seq<PositionEvent>)
    requires events != []
    ensures var f := Forwarded(init, events);
      (|f| > 0 && f[0] == events[0]) <==> events[0].time - init > SEND_INTERVAL
  {
    ForwardedAreSpaced(init, events);
    ForwardedPrefix(init, events, 1);
    assert events[..1][..0] == [];
  }

  lemma {:induction false} SpacedSpan(f: seq<PositionEvent>, k: nat)
    requires forall i :: 0 <= i < |f| - 1 ==> f[i + 1].time - f[i].time > SEND_INTERVAL
    requires k < |f|
    ensures f[k].time - f[0].time >= k * (SEND_INTERVAL + 1)
  {
    if k > 0 {
      SpacedSpan(f, k - 1);
    }
  }

  /** The throttle bounds the report rate: events whose times lie between `lo` and `hi`
      give at most one report per `SEND_INTERVAL` of that span, plus one. */
  lemma RateBound(init: int, events: seq<PositionEvent>, lo: int, hi: int)
    requires lo <= hi
    requires forall e :: e in events ==> lo <= e.time <= hi
    ensures |Forwarded(init, events)| <= (hi - lo) / SEND_INTERVAL + 1
  {
    var f := Forwarded(init, events);
    if |f| > 1 {
      ForwardedAreEvents(init, events);
      ForwardedAreSpaced(init, events);
      SpacedSpan(f, |f| - 1);
      assert f[0] in f && f[|f| - 1] in f;
      var q := (hi - lo) / SEND_INTERVAL;
      assert hi - lo == q * SEND_INTERVAL + (hi - lo) % SEND_INTERVAL;
    }
  }
}
