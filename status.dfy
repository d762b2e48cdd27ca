/** `display_status_filter`: the readable (Persian) label of an event status. */
module Status {

  const HeldLabel := "برگزار شده"
  const UpcomingLabel := "در پیش رو"
  const CancelledLabel := "لغو شده"

  /** The three statuses the label table knows. */
  predicate IsKnownStatus(status: string) {
    status == "held" || status == "upcoming" || status == "cancelled"
  }

  /** `status_map.get(status, status)`. */
  function DisplayStatus(status: string): (shown: string)
    ensures shown == status <==> !IsKnownStatus(status)
  {
    if status == "held" then HeldLabel
    else if status == "upcoming" then UpcomingLabel
    else if status == "cancelled" then CancelledLabel
    else status
  }

  /** The three known statuses get three different labels, none of them a status. */
  lemma DisplayStatusKnownLabels(s: string, t: string)
    requires IsKnownStatus(s) && IsKnownStatus(t)
    ensures !IsKnownStatus(DisplayStatus(s))
    ensures DisplayStatus(s) == DisplayStatus(t) ==> s == t
  {
  }

  /** Labelling twice is labelling once: no label is itself a known status. */
  lemma DisplayStatusIdempotent(status: string)
    ensures DisplayStatus(DisplayStatus(status)) == DisplayStatus(status)
  {
  }
}
