/** What the two trip-planner modals share: the callbacks they invoke and
    the submit guard, which asks both fields to be non-blank after `trim`. */
module TripPlanning {
  import opened Text

  /** A call the modal makes to its parent. */
  datatype Callback = PlanTrip(start: string, destination: string) | Close

  /** `start.trim() && destination.trim()`: both trimmed strings are
      non-empty, hence truthy. */
  predicate CanSubmit(start: string, destination: string) {
    Trim(start) != "" && Trim(destination) != ""
  }

  /** A submission goes ahead exactly when each field holds a character
      that is not whitespace. */
  lemma CanSubmitIff(start: string, destination: string)
    ensures CanSubmit(start, destination) <==>
              (exists i :: 0 <= i < |start| && !IsJsWhitespace(start[i]))
              && (exists j :: 0 <= j < |destination| && !IsJsWhitespace(destination[j]))
  {
    TrimEmptyIff(start);
    TrimEmptyIff(destination);
  }
}
