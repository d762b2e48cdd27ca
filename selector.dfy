/**
 * `find_main_page_event`: the event featured on the home page is the
 * soonest upcoming event after "now"; failing that the first event of the
 * (date-sorted) list; failing that none.
 */
module Selector {
  import opened Wrappers
  import opened Content

  /** `e.get('status') == 'upcoming'`. */
  predicate IsUpcoming(e: Item) {
    "status" in e.fields && e.fields["status"] == Scalar("upcoming")
  }

  /** A member of `upcoming_events`: upcoming and dated strictly after `now`. */
  predicate IsCandidate(e: Item, now: Instant) {
    IsUpcoming(e) && e.dateObj.Some? && e.dateObj.value > now
  }

  /**
   * Every upcoming event has a `date_obj`; otherwise Python compares `None`
   * with a datetime and raises `TypeError`.
   */
  predicate UpcomingDated(events: seq<Item>) {
    forall i | 0 <= i < |events| :: IsUpcoming(events[i]) ==> events[i].dateObj.Some?
  }

  /**
   * `min(upcoming_events, key=date_obj)` over the first `n` events, as an
   * index: the first candidate whose date no other candidate beats
   * (`min` keeps the earlier of two equal keys).
   */
  function Soonest(events: seq<Item>, now: Instant, n: nat): (r: Option<nat>)
    requires n <= |events|
    ensures r.Some? ==> r.value < n && IsCandidate(events[r.value], now)
    ensures r.None? <==> forall i | 0 <= i < n :: !IsCandidate(events[i], now)
    ensures r.Some? ==> forall i | 0 <= i < n && IsCandidate(events[i], now) ::
      && SortKey(events[r.value]) <= SortKey(events[i])
      && (SortKey(events[i]) == SortKey(events[r.value]) ==> r.value <= i)
    decreases n
  {
    if n == 0 then None
    else
      var best := Soonest(events, now, n - 1);
      if IsCandidate(events[n - 1], now) && (best.None? || SortKey(events[n - 1]) < SortKey(events[best.value]))
      then Some(n - 1)
      else best
  }

  predicate HasCandidate(events: seq<Item>, now: Instant) {
    exists i | 0 <= i < |events| :: IsCandidate(events[i], now)
  }

  /**
   * The position in `events` of the event `find_main_page_event` returns:
   * the first of the soonest candidates if there is a candidate, else the
   * first event.
   */
  function MainEventIndex(events: seq<Item>, now: Instant): (r: Option<nat>)
    requires UpcomingDated(events)
    ensures r.None? <==> events == []
    ensures r.Some? ==> r.value < |events|
    ensures HasCandidate(events, now) ==> r.Some? && IsCandidate(events[r.value], now)
    ensures HasCandidate(events, now) ==> forall i | 0 <= i < |events| && IsCandidate(events[i], now) ::
      && SortKey(events[r.value]) <= SortKey(events[i])
      && (SortKey(events[i]) == SortKey(events[r.value]) ==> r.value <= i)
    ensures !HasCandidate(events, now) && events != [] ==> r == Some(0)
  {
    match Soonest(events, now, |events|)
    case Some(i) => Some(i)
    case None => if events == [] then None else Some(0)
  }

  /** `find_main_page_event(events)` with the clock reading `now`. */
  function MainPageEvent(events: seq<Item>, now: Instant): (r: Option<Item>)
    requires UpcomingDated(events)
    ensures r.None? <==> events == []
    ensures r.Some? ==> r.value in events
    ensures HasCandidate(events, now) ==> r.Some? && IsCandidate(r.value, now)
    ensures HasCandidate(events, now) ==> forall e | e in events && IsCandidate(e, now) ::
      SortKey(r.value) <= SortKey(e)
    ensures !HasCandidate(events, now) && events != [] ==> r == Some(events[0])
  {
    match MainEventIndex(events, now)
    case Some(i) => Some(events[i])
    case None => None
  }

  function EventWith(status: string, date: Instant): Item {
    Item(map["status" := Scalar(status)], Some(date), None)
  }

  /**
   * The example of two upcoming events and a held one, with "now" between
   * the two upcoming dates: the upcoming event after "now" is featured,
   * not the earlier one.
   */
  lemma MainEventExample(far: Instant, near: Instant, now: Instant)
    requires near <= now < far
    ensures var a, b, c := EventWith("upcoming", far), EventWith("upcoming", near), EventWith("held", near);
      MainPageEvent([a, b, c], now) == Some(a)
  {
    var a, b, c := EventWith("upcoming", far), EventWith("upcoming", near), EventWith("held", near);
    assert IsCandidate(a, now) && !IsCandidate(b, now) && !IsCandidate(c, now);
    assert [a, b, c][0] == a;
  }
}
